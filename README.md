# txtblocks in Dafny

txtblocks extracts structured records from semi-structured text, such as the
output of network devices. A *text block* is a region of the input that starts
at a line matching the block's start pattern. Each block owns a list of
*extractors*, regular expressions with named groups. `BlockParser.parse` cuts
the input into occurrences of blocks and runs every extractor of the block on
every line of each occurrence's buffer. It returns, for each block name, the
list of dictionaries found.

The repository holds two independent versions of the engine. Each is one
Dafny module:

- **`TxtBlocks`** (`txtblocks.dfy`) models `txtblocks/txtblocks.py`.
  - Extractors are `TextElement` (free `re.search`) and `TextLine` (anchored `match`).
  - Blocks have an optional "oneliner" whitespace normalisation.
  - A parse result is `name -> list of groupdicts`, merged last-write-wins across lines and extractors.
  - The segmentation is driven by `find_textblock`. Any start line closes the open block and opens a new one.
- **`LegacyTxtBlocks`** (`legacy.dfy`) models the top-level `txtblocks.py`.
  - A parse result is keyed by extractor name.
  - While a block is open, only that block's own start pattern is consulted. A line matching it *closes* the block, is appended to the buffer without `'\n'`, and leaves no block open.
  - At the end of the input the open buffer gets the last line a second time.
  - Every close creates the block's list, even when nothing is recorded.

Shared modules:

- `Wrappers`: `Option`, and `Result` for "value returned or exception raised".
- `Re`: an abstract compiled pattern, known only through what `match` and `search` return. A match is seen as its group count plus its groupdict.
- `Seqs`: two facts about sequence prefixes.
- `Strings`:
  - Python's `str.isspace` whitespace set, `strip`, `split('\n')` and `join`;
  - the collapse `re.sub('\s+', ' ', ...)`;
  - the buffer built by `buffer += line + '\n'` (`Render`);
  - the lines `read_lines` yields (`Lines`).

Each algorithm is proved against a specification function of its inputs:

- **Extractor loop.** The nested loop of `TextBlock.parse` (`ParseBlock`) is proved against `Merge` / `Extract`. These fold over the line-major, extractor-minor sequence of probes.
- **Block parser.** The line loop of `BlockParser.parse` is proved against `Segments` / `Scan` followed by `Collect`.
  - It is split into one method per pass (`FeedLine`) and one for the end of input (`FeedEnd`).
  - The ghost predicate `ParseState` ties the loop variables (`currblock`, the buffer, `blocks`, and in the legacy engine `inblock`) to the specification after `i` lines.
- **Independent lemmas.** The properties the source promises are proved as lemmas on those functions: segmentation, first-match priority, record order, key sets, counts, last-write-wins and error propagation.

## Entities

The source's classes that only hold their constructor arguments are datatypes. Their methods are the functions listed under "## Model".

- `TxtBlocks.TextElement` models `TextElement.__init__` and `TextLine.__init__` (txtblocks/txtblocks.py:29-69). Its two constructors, `TextElement` and `TextLine`, keep the extractor's name and its pattern. For a `TextElement` the pattern is used with `search`, for a `TextLine` with an anchored `match`.
- `TxtBlocks.TextBlock` models `TextBlock.__init__` (txtblocks/txtblocks.py:91-114). It keeps the name, the extractors, the start pattern, the optional end pattern (`None` for the default `endregex=''`) and the `oneliner` flag.
- `LegacyTxtBlocks.TextLine` models `TextLine.__init__` (txtblocks.py:41-43): a name and a pattern used with an anchored `match`.
- `LegacyTxtBlocks.TextBlock` models `TextBlock.__init__` (txtblocks.py:68-86). It keeps the name, the extractors, the start pattern and the optional end pattern.
- `TxtBlocks.BlockParser` and `LegacyTxtBlocks.BlockParser` are classes. `Parser` and `BlockParser` are folded into one class, whose fields are the line counter, the input text and the list of blocks.

## Model

| member | source | states |
|---|---|---|
| `Strings.Strip` | txtblocks/txtblocks.py:171 | `str.strip()` leaves no whitespace at either end and never lengthens the string |
| `Strings.StripInfix` | txtblocks/txtblocks.py:171 | what `strip` keeps is one infix of the string, and everything cut off on either side is whitespace |
| `Strings.TrimLeft` | txtblocks/txtblocks.py:171 | the left half of `strip`: the result is a suffix, only whitespace was dropped, and it starts with non-whitespace |
| `Strings.TrimRight` | txtblocks/txtblocks.py:171 | the right half of `strip`: the result is a prefix, only whitespace was dropped, and it ends with non-whitespace |
| `Strings.Collapse` | txtblocks/txtblocks.py:143 | `re.sub('\s+', ' ', s)`: only plain spaces remain, never two adjacent, the result is empty iff the input is, and whitespace at the start is kept as one space |
| `Strings.CollapseNonSpace` | txtblocks/txtblocks.py:143 | collapsing keeps every non-whitespace character, in order |
| `Strings.CollapseLast` | txtblocks/txtblocks.py:143 | the collapsed text ends in whitespace exactly when the input does |
| `Strings.CollapseFixed` | txtblocks/txtblocks.py:143 | text with only single plain spaces is left unchanged by the collapse |
| `Strings.Normalize` | txtblocks/txtblocks.py:142-143 | the oneliner normalisation has no edge whitespace, no two adjacent whitespace characters, no `'\n'`, and keeps the non-whitespace characters in order |
| `Strings.NormalizeIdempotent` | txtblocks/txtblocks.py:142-143 | normalising twice gives the same text as normalising once |
| `Strings.Split` | txtblocks/txtblocks.py:145 | `text.split('\n')` yields at least one piece and no piece contains the separator |
| `Strings.JoinSplit` | txtblocks/txtblocks.py:145 | joining the pieces of a split with the separator gives back the text |
| `Strings.SplitJoin` | txtblocks/txtblocks.py:145 | splitting the join of separator-free pieces gives back those pieces |
| `Strings.SplitNoSep` | txtblocks/txtblocks.py:142-145 | a text without `'\n'` splits into exactly itself |
| `Strings.RenderSnoc` | txtblocks/txtblocks.py:214-216 | `buffer += line + '\n'` appends the line and one newline to the buffer |
| `Strings.RenderSplit` | txtblocks/txtblocks.py:145 | a buffer of newline-free lines splits back into those lines plus one trailing empty piece |
| `Strings.Lines` | txtblocks/txtblocks.py:168-173 | `read_lines` yields as many lines as `split('\n')` gives pieces, none with `'\n'`, none with edge whitespace when stripping |
| `TxtBlocks.FirstMatch` | txtblocks/txtblocks.py:39-85 | the match an extractor works from: `re.search` for a `TextElement` (line 43), the compiled pattern's anchored `match` for a `TextLine` (line 75) |
| `TxtBlocks.UnnamedMessage` | txtblocks/txtblocks.py:48-81 | the exception text of each kind: "Some regexes in NAME have no name. Use ?P<myregexname>" for a `TextElement`, "Some patternes in NAME have no name. Use ?P<mypatternname>" for a `TextLine` |
| `TxtBlocks.ParseElement` | txtblocks/txtblocks.py:39-53 | extractor parse: the search/anchored match is chosen by the kind of extractor; `({}, name)` without a match; an exception exactly when the match has groups but no named group, with the extractor's name and that kind's message text; else `(groupdict, name)` |
| `TxtBlocks.BlockLines` | txtblocks/txtblocks.py:142-145 | the lines the extractors see: the `'\n'`-split of the buffer, or exactly one normalised line with the oneliner flag |
| `TxtBlocks.OnelinerSingleLine` | txtblocks/txtblocks.py:142-145 | with the oneliner flag the extractors see exactly one line, free of `'\n'` |
| `TxtBlocks.MatchesStartPattern` | txtblocks/txtblocks.py:116-122 | `matches_start_pattern`: true exactly when the start pattern matches at the beginning of the text |
| `TxtBlocks.MatchesEndPattern` | txtblocks/txtblocks.py:124-130 | `matches_end_pattern`: true exactly when the end pattern matches at the beginning of the text; requires an end pattern to be set |
| `TxtBlocks.Row` | txtblocks/txtblocks.py:146-147 | one line is probed by every extractor, in list order |
| `TxtBlocks.Merge` | txtblocks/txtblocks.py:140-152 | the reference definition of the extractor loop. It folds over the probes in line-major order. A non-empty groupdict is written over the data, an empty one changes nothing, and the first exception aborts |
| `TxtBlocks.ParsedBlock` | txtblocks/txtblocks.py:132-154 | the reference definition of `TextBlock.parse`: the block's name paired with `Merge` of the probes of `BlockLines`, or the exception |
| `TxtBlocks.ParseBlock` | txtblocks/txtblocks.py:132-154 | the nested loop of `TextBlock.parse` returns exactly `ParsedBlock`: the block's name with the last-write-wins merge of all groupdicts, or the first exception |
| `TxtBlocks.MergeInto` | txtblocks/txtblocks.py:150-151 | `for e in match: data[e] = match[e]` yields `data + match`: new keys from `match`, with `match`'s values over `data`'s |
| `TxtBlocks.MergeKeys` | txtblocks/txtblocks.py:145-151 | the keys of the merged dictionary are exactly the group names of the probes' groupdicts |
| `TxtBlocks.MergeLastWins` | txtblocks/txtblocks.py:145-151 | each key holds the value of the last (line, extractor) probe, line-major, whose groupdict has it |
| `TxtBlocks.MergeErr` | txtblocks/txtblocks.py:147 | `TextBlock.parse` raises iff some probe raises |
| `TxtBlocks.MergeFirstErr` | txtblocks/txtblocks.py:145-147 | a raising parse carries the exception of the first raising probe; all probes before it succeed |
| `TxtBlocks.MergeOkAll` | txtblocks/txtblocks.py:145-147 | a parse that does not raise ran every probe without error |
| `TxtBlocks.MergeErrPrefix` | txtblocks/txtblocks.py:145-147 | once the probes so far raise, the whole parse raises the same exception |
| `TxtBlocks.MergeAllEmpty` | txtblocks/txtblocks.py:149-154 | probes that all return `{}` merge to `{}` |
| `TxtBlocks.ParsedBlockName` | txtblocks/txtblocks.py:154 | the returned name is always the block's own name |
| `TxtBlocks.ParsedBlockNoElements` | txtblocks/txtblocks.py:140-154 | a block without extractors returns `(name, {})` on every buffer |
| `TxtBlocks.ParsedBlockNoMatches` | txtblocks/txtblocks.py:140-154 | when no extractor finds a named group on any line, the result is `(name, {})` |
| `TxtBlocks.StartingBlock` | txtblocks/txtblocks.py:181-186 | `find_textblock`: the index of a block whose start pattern matches, with no earlier block matching; None iff no block matches |
| `TxtBlocks.StartingBlockFirst` | txtblocks/txtblocks.py:182-184 | the first matching block in list order is the one found |
| `TxtBlocks.BlockParser.FindTextblock` | txtblocks/txtblocks.py:181-186 | the search loop returns exactly `StartingBlock` |
| `TxtBlocks.Segments` | txtblocks/txtblocks.py:196-216 | the occurrences the parse loop builds; each is of a listed block and has at least one line |
| `TxtBlocks.Feed` | txtblocks/txtblocks.py:197-216 | one line keeps the occurrences valid. A start line closes the open occurrence and opens one of its block holding only the line. Any other line is appended to the open occurrence, leaving the closed ones alone. With none open it changes nothing, and then the result is empty. The segmentation as a whole is characterised by `SegmentsPartition` |
| `TxtBlocks.SegmentsSnoc` | txtblocks/txtblocks.py:196-216 | reading one more line applies `Feed` once |
| `TxtBlocks.Closed` | txtblocks/txtblocks.py:199-211 | the occurrences already finalised are all but the open one |
| `TxtBlocks.SegmentsPartition` | txtblocks/txtblocks.py:196-216 | the occurrences laid end to end are exactly a suffix of the input, and the lines before it start no block; each occurrence begins with a line whose first matching block is its own, and none of its other lines starts any block |
| `TxtBlocks.SegmentsCount` | txtblocks/txtblocks.py:197-214 | every line that opens a block of a name opens exactly one occurrence of it |
| `TxtBlocks.SegmentsStable` | txtblocks/txtblocks.py:196-216 | reading more lines keeps the finalised occurrences and never returns to "no block open" |
| `TxtBlocks.SegmentsNoStart` | txtblocks/txtblocks.py:212-216 | input without start lines gives no occurrence |
| `TxtBlocks.SegmentsIgnoreLeading` | txtblocks/txtblocks.py:215-216 | lines before the first start line are discarded |
| `TxtBlocks.SegmentBuffer` | txtblocks/txtblocks.py:211-216 | an occurrence's buffer is its lines, each terminated by `'\n'`: splitting it gives them back plus one empty piece |
| `TxtBlocks.Store` | txtblocks/txtblocks.py:203-208 | saving appends a non-empty dictionary to its name's list and leaves other names alone |
| `TxtBlocks.StoreKeys` | txtblocks/txtblocks.py:204-206 | the keys after saving are the old ones plus the block's name exactly when the dictionary is non-empty |
| `TxtBlocks.SaveMatch` | txtblocks/txtblocks.py:203-208 | the save code returns exactly `Store` |
| `TxtBlocks.Finalise` | txtblocks/txtblocks.py:200-208 | finalising raises iff `TextBlock.parse` raises; otherwise only the block's own list changes, by the records its dictionary gives |
| `TxtBlocks.CloseBlock` | txtblocks/txtblocks.py:218-227 | parse-then-save returns exactly `Finalise` |
| `TxtBlocks.Collect` | txtblocks/txtblocks.py:196-227 | the reference definition of the saving: the occurrences are finalised in order, each buffer being its lines each followed by `'\n'`, and the first exception aborts |
| `TxtBlocks.ParseLines` | txtblocks/txtblocks.py:196-229 | the reference definition of the parse over the lines read: `Collect` of `Segments` |
| `TxtBlocks.ParseText` | txtblocks/txtblocks.py:188-229 | the reference definition of `parse(text)`: `ParseLines` of the stripped lines of `text` |
| `TxtBlocks.CollectShape` | txtblocks/txtblocks.py:203-208 | every list of the result is non-empty and holds only non-empty dictionaries |
| `TxtBlocks.CollectKeys` | txtblocks/txtblocks.py:203-208 | every key of the result names the block of some occurrence |
| `TxtBlocks.CollectConcat` | txtblocks/txtblocks.py:196-227 | records are in input order: finalising `a` then `c` gives, per name, `a`'s records followed by `c`'s |
| `TxtBlocks.CollectErrPrefix` | txtblocks/txtblocks.py:201 | an exception ends the parse: later occurrences change nothing |
| `TxtBlocks.CollectCount` | txtblocks/txtblocks.py:203-208 | a name has at most one record per occurrence of its blocks |
| `TxtBlocks.ParseLinesShape` | txtblocks/txtblocks.py:188-229 | the parse result maps every key to a non-empty list of non-empty dictionaries |
| `TxtBlocks.ParseLinesCount` | txtblocks/txtblocks.py:196-229 | a name has at most as many records as there are lines opening its blocks |
| `TxtBlocks.ParseLinesIgnoreLeading` | txtblocks/txtblocks.py:196-216 | lines before the first start line have no effect on the result |
| `TxtBlocks.ParseLinesNoStart` | txtblocks/txtblocks.py:196-229 | input without start lines gives `{}` |
| `TxtBlocks.ParseLinesKeys` | txtblocks/txtblocks.py:196-229 | every key of the result names a block that is the first match of some input line |
| `TxtBlocks.ParseBuffer` | txtblocks/txtblocks.py:189-220 | the loop invariant: the buffer is non-empty iff a block is open, and then the block is a listed one, so the end-of-input `currblock.get_name()` never dereferences None |
| `TxtBlocks.ParseStepNext` | txtblocks/txtblocks.py:199-211 | a start line with a block open finalises the open buffer (an exception ends the parse) and restarts the buffer with the line |
| `TxtBlocks.ParseStepFirst` | txtblocks/txtblocks.py:212-214 | a start line with no block open opens its block with the line as buffer |
| `TxtBlocks.ParseStepExtend` | txtblocks/txtblocks.py:215-216 | another line with a block open is appended to the buffer with `'\n'` |
| `TxtBlocks.ParseStepSkip` | txtblocks/txtblocks.py:196-216 | another line with no block open is dropped |
| `TxtBlocks.ParseFinishOpen` | txtblocks/txtblocks.py:218-229 | at the end of the input the open buffer is finalised, giving the whole result |
| `TxtBlocks.ParseFinishNone` | txtblocks/txtblocks.py:218-229 | at the end of the input with no block open, the records so far are the result |
| `TxtBlocks.BlockParser.constructor` | txtblocks/txtblocks.py:161-163 | a new parser has its block list, line counter 0 and empty text |
| `TxtBlocks.BlockParser.SetInputText` | txtblocks/txtblocks.py:165-166 | sets the input text |
| `TxtBlocks.BlockParser.ReadLines` | txtblocks/txtblocks.py:168-173 | yields exactly `Lines(text, strip)` and adds their number to the line counter |
| `TxtBlocks.BlockParser.NextLine` | txtblocks/txtblocks.py:169-173 | one generator step: the `i`-th line, stripped when asked, counted once |
| `TxtBlocks.BlockParser.FeedLine` | txtblocks/txtblocks.py:197-216 | one pass of the parse loop keeps `ParseState`, or returns the exception the whole parse raises |
| `TxtBlocks.BlockParser.FeedEnd` | txtblocks/txtblocks.py:218-229 | the end of the parse returns exactly `ParseLines` of the lines read |
| `TxtBlocks.BlockParser.Parse` | txtblocks/txtblocks.py:188-229 | `parse(text)` stores the text, returns exactly `ParseText` (records or the exception), and counts every line read |
| `LegacyTxtBlocks.ParseLine` | txtblocks.py:46-59 | `TextLine.parse`: anchored match; `{}` without a match; an exception exactly when the match has groups but no named group, with the extractor's name in the message; otherwise the groupdict |
| `LegacyTxtBlocks.UnnamedMessage` | txtblocks.py:55 | the exception text "Some regexes in NAME have no name. Use ?P<myregexname>" |
| `LegacyTxtBlocks.DeviceIdExample` | txtblocks.py:34-38 | the documented `deviceid` example: the captured text on a matching line, `{}` on another |
| `LegacyTxtBlocks.Row` | txtblocks.py:114-115 | one line is probed by every extractor, in list order |
| `LegacyTxtBlocks.MatchesStartPattern` | txtblocks.py:88-94 | `matches_start_pattern`: true exactly when the start pattern matches at the beginning of the text |
| `LegacyTxtBlocks.MatchesEndPattern` | txtblocks.py:96-102 | `matches_end_pattern`: true exactly when the end pattern matches at the beginning of the text; requires an end pattern to be set |
| `LegacyTxtBlocks.Extract` | txtblocks.py:111-119 | the reference definition of the extractor loop. It folds over the probes in line-major order. A non-empty groupdict is stored whole under its extractor's name, an empty one changes nothing, and the first exception aborts |
| `LegacyTxtBlocks.ParsedBlock` | txtblocks.py:104-121 | the reference definition of `TextBlock.parse`: `Extract` of the probes of the `'\n'`-split buffer |
| `LegacyTxtBlocks.ParseBlock` | txtblocks.py:104-121 | the nested loop of `TextBlock.parse` returns exactly `ParsedBlock`, or the first exception |
| `LegacyTxtBlocks.ExtractKeys` | txtblocks.py:113-118 | the keys are exactly the names of extractors that matched some line with a non-empty groupdict; the others are absent |
| `LegacyTxtBlocks.ProducedLast` | txtblocks.py:113-118 | an extractor name is produced by the probes iff it was before the last probe, or the last probe produced it |
| `LegacyTxtBlocks.ExtractLastWins` | txtblocks.py:113-118 | each entry is the whole groupdict of the last line on which an extractor of that name matched |
| `LegacyTxtBlocks.ExtractErr` | txtblocks.py:115 | `TextBlock.parse` raises iff some extractor raises on some line |
| `LegacyTxtBlocks.ExtractFirstErr` | txtblocks.py:113-115 | a raising parse carries the first raising probe's exception; the probes before it succeed |
| `LegacyTxtBlocks.ExtractOkAll` | txtblocks.py:113-115 | a parse that does not raise ran every probe without error |
| `LegacyTxtBlocks.ExtractErrPrefix` | txtblocks.py:113-115 | once the probes so far raise, the whole parse raises the same exception |
| `LegacyTxtBlocks.ExtractStepOk` | txtblocks.py:117-118 | one probe: a non-empty groupdict replaces its extractor's entry, an empty one changes nothing |
| `LegacyTxtBlocks.ExtractAllEmpty` | txtblocks.py:111-121 | probes that all return `{}` give `{}` |
| `LegacyTxtBlocks.ParsedBlockNoElements` | txtblocks.py:111-121 | a block without extractors returns `{}` |
| `LegacyTxtBlocks.ParsedBlockNoMatches` | txtblocks.py:111-121 | when no extractor matches any line, the result is `{}` |
| `LegacyTxtBlocks.StartingBlock` | txtblocks.py:175-180 | with no block open, the block a line opens matches it and no earlier block does; None iff no block matches |
| `LegacyTxtBlocks.StartingBlockFirst` | txtblocks.py:175-180 | the first matching block in list order is the one opened |
| `LegacyTxtBlocks.Scan` | txtblocks.py:155-180 | the closed occurrences and the open one after reading the lines; no line read means nothing open |
| `LegacyTxtBlocks.Step` | txtblocks.py:156-180 | one line keeps the scan state valid: every block index refers to a listed block and an open occurrence has lines |
| `LegacyTxtBlocks.ScanSnoc` | txtblocks.py:155-180 | reading one more line applies `Step` once |
| `LegacyTxtBlocks.ScanClose` | txtblocks.py:157-171 | a line matching the open block's start pattern closes it with the line as closer and leaves no block open, so the closer opens nothing |
| `LegacyTxtBlocks.ScanOwnStartOnly` | txtblocks.py:156-158 | with a block open, any line not matching that block's own start pattern, even another block's start line, extends the occurrence |
| `LegacyTxtBlocks.ScanWellFormed` | txtblocks.py:155-180 | every occurrence starts with a line whose first matching block is its block, holds no further line matching its own start pattern, and, once closed, was closed by one; the open one ends with the last line read |
| `LegacyTxtBlocks.StepWellFormed` | txtblocks.py:156-180 | one line keeps the occurrences well formed |
| `LegacyTxtBlocks.ScanSkipAll` | txtblocks.py:174-180 | lines starting no block, read with no block open, are discarded |
| `LegacyTxtBlocks.ScanIgnoreLeading` | txtblocks.py:174-180 | lines before the first start line do not change the scan |
| `LegacyTxtBlocks.OccurrencesIgnoreLeading` | txtblocks.py:174-194 | lines before the first start line do not change the occurrences handed to `TextBlock.parse` |
| `LegacyTxtBlocks.ScanDoneGrows` | txtblocks.py:155-171 | closed occurrences stay closed as more lines are read |
| `LegacyTxtBlocks.ScanDonePrefix` | txtblocks.py:155-194 | the occurrences closed so far come first among all occurrences |
| `LegacyTxtBlocks.Occurrences` | txtblocks.py:155-194 | the buffers parsed during the loop and at the end of the input, each of a listed block |
| `LegacyTxtBlocks.Buffer` | txtblocks.py:158-184 | the buffer of an occurrence: each of its lines followed by `'\n'`, then the line that ended it without one |
| `LegacyTxtBlocks.OccurrencesLastLineTwice` | txtblocks.py:183-184 | at the end of the input the open buffer ends with the last line, then `'\n'`, then the last line again |
| `LegacyTxtBlocks.Store` | txtblocks.py:160-166 | every close creates the block's list and appends a non-empty dictionary; other names are untouched |
| `LegacyTxtBlocks.StoreKeys` | txtblocks.py:160-161 | saving adds exactly the block's name as a key, whatever the dictionary |
| `LegacyTxtBlocks.Finalise` | txtblocks.py:158-166 | finalising raises iff `TextBlock.parse` raises; otherwise the block's key exists and only its list changes, by the records the dictionary gives |
| `LegacyTxtBlocks.FinaliseKeys` | txtblocks.py:160-161 | finalising adds exactly the key of the block's name |
| `LegacyTxtBlocks.FinaliseCount` | txtblocks.py:165-166 | finalising adds at most one record, and only to the block's own list |
| `LegacyTxtBlocks.CloseBlock` | txtblocks.py:158-166 | create-key, parse, then append returns exactly `Finalise` |
| `LegacyTxtBlocks.Collect` | txtblocks.py:155-194 | the reference definition of the saving: the occurrences are finalised in order with their `Buffer`s, and the first exception aborts |
| `LegacyTxtBlocks.ParseLines` | txtblocks.py:155-196 | the reference definition of the parse over the lines read: `Collect` of `Occurrences` |
| `LegacyTxtBlocks.ParseText` | txtblocks.py:149-196 | the reference definition of `parse()`: `ParseLines` of the stripped lines of the input string |
| `LegacyTxtBlocks.CollectLast` | txtblocks.py:155-194 | the last occurrence is finalised after all the others |
| `LegacyTxtBlocks.CollectErrPrefix` | txtblocks.py:163 | an exception ends the parse: later occurrences change nothing |
| `LegacyTxtBlocks.HasOccurrenceLast` | txtblocks.py:160-161 | a name has an occurrence iff it had one before the last occurrence or is the last occurrence's block's name |
| `LegacyTxtBlocks.CollectKeys` | txtblocks.py:160-161 | the keys of the result are exactly the names of blocks with an occurrence, even when every buffer parsed to `{}` |
| `LegacyTxtBlocks.CollectShape` | txtblocks.py:165-166 | every dictionary recorded under any name is non-empty |
| `LegacyTxtBlocks.FinaliseShape` | txtblocks.py:165-166 | finalising keeps every recorded dictionary non-empty |
| `LegacyTxtBlocks.CollectCount` | txtblocks.py:160-166 | a name has at most one record per occurrence of its blocks |
| `LegacyTxtBlocks.CollectOrder` | txtblocks.py:165-166 | each close appends its record after the records of earlier closes |
| `LegacyTxtBlocks.ParseLinesKeys` | txtblocks.py:149-196 | the keys of the parse result are exactly the names of blocks that had an occurrence |
| `LegacyTxtBlocks.ParseLinesShape` | txtblocks.py:149-196 | every record of the parse result is a non-empty dictionary |
| `LegacyTxtBlocks.ParseLinesCount` | txtblocks.py:149-196 | a name has at most one record per occurrence of its blocks |
| `LegacyTxtBlocks.ParseLinesIgnoreLeading` | txtblocks.py:174-180 | lines before the first start line have no effect on the result |
| `LegacyTxtBlocks.OpenStateExtend` | txtblocks.py:172-173 | a line not matching the open block's start pattern is appended to the buffer with `'\n'` |
| `LegacyTxtBlocks.OpenStateOpen` | txtblocks.py:174-180 | with no block open, a start line makes its block current, sets `inblock` and buffers the line with `'\n'` |
| `LegacyTxtBlocks.OpenStateSkip` | txtblocks.py:174-180 | with no block open, a line starting no block changes nothing |
| `LegacyTxtBlocks.OpenStateClose` | txtblocks.py:157-171 | a line matching the open block's start pattern is appended without `'\n'`, the buffer is finalised, and the state resets to empty buffer, no block and `inblock` false |
| `LegacyTxtBlocks.ParseErr` | txtblocks.py:163 | an exception while closing an occurrence is the result of the whole parse |
| `LegacyTxtBlocks.ParseFinishOpen` | txtblocks.py:183-196 | at the end of the input the open buffer, extended by the last line, is finalised, giving the whole result |
| `LegacyTxtBlocks.ParseFinishNone` | txtblocks.py:183-196 | at the end of the input with no block open, the records so far are the result |
| `LegacyTxtBlocks.BlockParser.constructor` | txtblocks.py:128-130 | a new parser has its input string, block list and line counter 0 |
| `LegacyTxtBlocks.BlockParser.SetInputstr` | txtblocks.py:132-133 | sets the input string |
| `LegacyTxtBlocks.BlockParser.ReadLines` | txtblocks.py:135-140 | yields exactly `Lines(inputstr, strip)` and adds their number to the line counter |
| `LegacyTxtBlocks.BlockParser.NextLine` | txtblocks.py:136-140 | one generator step: the `i`-th line, stripped when asked, counted once |
| `LegacyTxtBlocks.BlockParser.FeedLine` | txtblocks.py:156-180 | one pass of the parse loop keeps `ParseState`, including `inblock` iff `currblock` is set, or returns the exception the whole parse raises |
| `LegacyTxtBlocks.BlockParser.FeedEnd` | txtblocks.py:183-196 | the end of the parse returns exactly `ParseLines` of the lines read |
| `LegacyTxtBlocks.BlockParser.Parse` | txtblocks.py:149-196 | `parse()` returns exactly `ParseText` of the input string (records or the exception) and counts every line read |

## Left out

- **Regular expressions.** The regex engine is abstract. A pattern is two functions, for `match` (anchored) and `search` (first match anywhere). Malformed patterns rejected by `re.compile` are not modelled.
  - The one exception is the whitespace collapse of the oneliner option, which is written out.
  - `TextElement` passes its pattern string to `re.search` on each call. This is modelled as the same abstract `search`.
- **Exceptions.** They are `Result` values. Python exceptions other than the unnamed-group one (for example an extractor raising from inside the `re` module) cannot occur in the model.
- **Block identity.** Blocks are identified by their position in the parser's list, not by object identity. Python's truth test on a `TextBlock` object is always true; it is modelled as "a block is set".
- **Dictionary order.** Dictionaries are Dafny maps, so the insertion order of Python dictionaries is not modelled. The order of records within a list is.
- **Line counter after an error.** `read_lines` is a generator, modelled one step at a time (`NextLine`). After an exception the parse methods state only that the counter grew by between one and the number of input lines.
- **Loop structure.** Each parse loop body is modelled as a separate method (`FeedLine`, plus `FeedEnd` for the code after the loop). The input is read piece by piece as the generator yields it.
- **`matches_end_pattern`.** Without a configured end pattern the source calls `.match` on the empty string and fails. The model requires an end pattern. Neither parser calls this predicate.
- **Legacy `elif inblock`.** In the legacy loop, `FeedLine` takes the source's `elif inblock` branch as an `else`. `inblock` holds whenever a block is open: the `OpenState` invariant states `inblock == currblock.Some?`. The branch skipping both is therefore unreachable.
- **`continue` in `TextBlock.parse`.** The `continue` inside the extractor loop is the last statement of the loop body in both engines (txtblocks/txtblocks.py:152 and txtblocks.py:119). It has no effect and is not modelled.
- **Test files.** `txtblocks/tests/test_txtblocks.py` and `tests.py` expect list-valued fields, accumulation of several matches, and other result shapes. The code returns the bare groupdict of a single match, and a `(name, dict)` pair from the current `TextBlock.parse`. The model follows the code. None of the test expectations is stated as a lemma.
- **Optional arguments.** The default argument `name=''` of the extractors is an ordinary string in the model.
- **Outside the engines.** The licence headers, the `sys.path` set-up of the tests and the `unittest` mains are not modelled.
