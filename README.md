# GSheetStringsSyncer, modelled in Dafny

GSheetStringsSyncer keeps the `Localizable.strings` files of an app in step
with a Google Sheet, one language per column. The project models the parts
of it that compute:

- the parser of a strings file: comments, blank-line markers, key/value
  entries, a dictionary and a header;
- the grid the upload writes: comments in column A, keys in B, and one
  column per language from C;
- the text the download writes back for each language;
- the ChatGPT importer's merge pass, which fills empty value cells from an
  imported file, marks each filled cell in the metadata column next to it,
  and reports keys for which the import has no usable translation;
- the small helpers the passes share: column letters, A1 ranges, reading a
  cell of a short row, escaping line breaks, and finding the sheet id in a
  URL.

The modules:

- `Text`: Python's `isspace`, `strip`, `startswith`, `endswith` and `replace`.
- `Cells`: reading a cell of a row that may be short.
- `Columns`: column letters and range strings.
- `SheetUrl`: finding the sheet id in a URL.
- `Escaping`: encoding line breaks in values.
- `KeyValuePattern`: the regular expression for a key/value line.
- `StringsParser`: the parser, and the scenarios in `ParserScenarios`.
- `SheetGrid`: the upload and the download.
- `TranslationMerge`: the importer's merge pass.

Where the code works by changing state, the model does too:

- The parser's state is the class `StringsParser.Parser`.
- The importer's grid is the class `TranslationMerge.SheetValues`, whose
  rows the pass changes in place.
- The loops are `while` loops, each proved against a function
  (`Step`/`Parse`, `RenderedFile`, `Merge`).

The properties are lemmas about those functions.

Three things are parameters of the model rather than parts of it:

- The Sheets service. An upload is modelled as the range and the cells it
  sends. A download starts from the rows the service returned.
- The language list, which the source keeps as a global.
- The decoder the parser applies to values (`decode_escaped_string`).

The model follows the code where its behaviour is easy to misread:

- Row 2 of the comments column holds the literal text `Header`, not the
  reference file's header.
- A line whose stripped text ends in `*/` closes a block comment even when
  no block is open. It then becomes the header, or a comment.
- The merge writes the note into the metadata cell even when that cell
  already held text (`TranslationMerge.MetadataCellIsOverwritten`). Only
  value cells are never overwritten.
- Values are escaped only for line breaks, not for backslashes, so encoding
  is not injective (`Escaping.EncodeNotInjective`).
- A one-line block comment `/* ... */` does not close itself. See Findings.
- An upload writes only the rows the new columns reach, and nothing clears the
  sheet first. Rows left below them by a longer earlier upload are downloaded
  again, with their keys: the file is that of a fresh upload with those rows
  appended (`SheetGrid.UploadThenDownload`, `SheetGrid.UploadThenDownloadFresh`).

## Model

| member | source | states |
|---|---|---|
| Cells.ItemOrEmpty | gsheet_strings_syncer.py:61-62 | the cell at the index when the row is long enough, `""` past its end |
| Cells.Padded | chatgpt-translation_importer.py:102-105 | the row keeps its cells and gets `count` more cells holding the fill |
| Cells.PaddingReadsAsMissing | chatgpt-translation_importer.py:56-57 | cells padded with `""` read exactly as the missing cells they replace |
| Columns.Letter | gsheet_strings_syncer.py:69 | `chr(65 + d)` is the capital letter with offset `d`, for `0 <= d < 26` |
| Columns.ColumnLetter | gsheet_strings_syncer.py:65-70 | the loop computes `Label(number)`, the bijective base-26 numeral: `""` for numbers up to 0 |
| Columns.Label | gsheet_strings_syncer.py:65-70 | the bijective base-26 numeral of a column number, the reference the loop is proved against; `LabelShape`, `ValueOfLabel`, `LabelOfValue` and `LabelInjective` state what it means |
| Columns.LabelShape | gsheet_strings_syncer.py:65-70 | a positive number gets a non-empty label of capital letters; others get `""` |
| Columns.ValueOfLabel | gsheet_strings_syncer.py:65-70 | reading a label back as a bijective base-26 numeral gives the number |
| Columns.LabelOfValue | gsheet_strings_syncer.py:65-70 | every string of capital letters is the label of exactly its own value |
| Columns.LabelInjective | gsheet_strings_syncer.py:65-70 | different columns get different labels |
| Columns.LabelExamples | gsheet_strings_syncer.py:65-70 | 1, 26, 27, 702 and 703 are labelled A, Z, AA, ZZ and AAA |
| Columns.DecimalRoundTrip | gsheet_strings_syncer.py:154 | the row count in a range is a non-empty run of digits that reads back as the count |
| Columns.RangeString | chatgpt-translation_importer.py:94 | the A1 range `{sheet}!{start}1:{end}{rows}` (also gsheet_strings_syncer.py:154, with one column); `RangeStringDecodes` states that it reads back as both columns and the row count |
| Columns.RangeStringDecodes | chatgpt-translation_importer.py:94 | the range `{sheet}!{start}1:{end}{rows}` is made of two letter labels and a digit string that read back as the start column, the end column and the row count |
| SheetUrl.IdEnd | gsheet_strings_syncer.py:43 | `[a-zA-Z0-9-_]+` is greedy: the id runs up to the first character outside the class |
| SheetUrl.FindMatch | gsheet_strings_syncer.py:42-44 | `re.search` gives the leftmost position where the marker is followed by at least one id character, or none |
| SheetUrl.NotFoundIsNotId | gsheet_strings_syncer.py:50 | the not-found message contains spaces, so no URL's id equals it |
| SheetUrl.ExtractSheetId | gsheet_strings_syncer.py:41-50 | group 1 of the leftmost match, or the not-found message; `ExtractSheetIdFound`, `ExtractSheetIdMissing` and `ExtractSheetIdIsId` state both outcomes |
| SheetUrl.ExtractSheetIdFound | gsheet_strings_syncer.py:41-48 | with a match, the result is the longest run of id characters after the leftmost marker that has one |
| SheetUrl.ExtractSheetIdMissing | gsheet_strings_syncer.py:49-50 | with no match, the result is `"No Sheet ID found in URL"` |
| SheetUrl.ExtractSheetIdIsId | gsheet_strings_syncer.py:41-50 | the result is a well-formed id exactly when the URL holds the marker followed by an id character |
| Escaping.Encode | gsheet_strings_syncer.py:57-58 | `replace("\n", "\\n")`, character by character; `EncodeShape`, `EncodeChar`, `EncodeKeepsOtherChars`, `EncodeConcat` and `EncodeNotInjective` state what it does |
| Escaping.EncodeShape | gsheet_strings_syncer.py:57-58 | the encoded value holds no line break and is one character longer per line break |
| Escaping.EncodeKeepsOtherChars | gsheet_strings_syncer.py:57-58 | a character other than a line break, a backslash or `n` is in the encoded value exactly when it is in the value |
| Escaping.EncodeConcat | gsheet_strings_syncer.py:57-58 | the replacement works character by character, so it distributes over concatenation |
| Escaping.EncodeChar | gsheet_strings_syncer.py:57-58 | a line break becomes backslash-n; every other character is kept |
| Escaping.EncodeNotInjective | gsheet_strings_syncer.py:57-58 | a line break and the two characters backslash-n encode alike |
| Escaping.DecodeNewlines | gsheet_strings_syncer.py:53-54 | the part of `decode_escaped_string` the round trips are proved for: backslash-n becomes a line break and every other character is kept (see Left out) |
| Escaping.DecodePlainPrefix | gsheet_strings_syncer.py:53-54 | under the line-break decoder, text without a backslash passes through unchanged |
| Escaping.DecodeEscapedBreak | gsheet_strings_syncer.py:53-54 | between two runs of text without a backslash, backslash-n decodes to a line break |
| Escaping.DecodeEncode | gsheet_strings_syncer.py:53-58 | a value without a backslash survives encoding and then decoding |
| Escaping.EncodeDecode | gsheet_strings_syncer.py:53-58 | text without a line break survives decoding and then encoding |
| Text.Trim | gsheet_strings_syncer.py:117 | `strip()`: `lstrip` then `rstrip`, no longer than the line; `TrimKeepsInnerText` states what it keeps |
| Text.StripChar | gsheet_strings_syncer.py:116 | `strip('\n')`, no longer than the line; `StripCharDropsEnds` states what it keeps and what it removes |
| Text.ReplaceAll | gsheet_strings_syncer.py:234 | `replace`: non-overlapping occurrences, left to right; `ReplaceAllAbsent` and `ReplaceAllWhole` state its two edge cases |
| Text.TrimStartDropsLeadingSpace | gsheet_strings_syncer.py:117 | `lstrip` removes exactly the longest all-white-space prefix |
| Text.TrimEndDropsTrailingSpace | gsheet_strings_syncer.py:117 | `rstrip` removes exactly the longest all-white-space suffix |
| Text.TrimKeepsInnerText | gsheet_strings_syncer.py:117 | `strip()` keeps a contiguous part of the line that starts and ends with a non-space |
| Text.StripCharDropsEnds | gsheet_strings_syncer.py:116 | `strip('\n')` keeps a contiguous part of the line that neither starts nor ends with a line break, and removes only line breaks before and after it, so the longest such runs |
| Text.ReplaceAllAbsent | gsheet_strings_syncer.py:234 | `replace` leaves a text without the pattern unchanged |
| Text.ReplaceAllWhole | gsheet_strings_syncer.py:234 | `replace` turns a text that is exactly the pattern into the replacement |
| KeyValuePattern.SkipSpaces | gsheet_strings_syncer.py:143 | `\s*` ends at the first non-space at or after the start |
| KeyValuePattern.ValueEnd | gsheet_strings_syncer.py:143 | the lazy value group ends at the first `";` after its start, with no line break before it, if there is one |
| KeyValuePattern.MatchKeyValue | gsheet_strings_syncer.py:143-145 | `re.search` of the pattern, trying each start and each closing quote of the key in turn; `MatchKeyValueSound` and `MatchKeyValueComplete` state that it matches exactly the lines the pattern matches |
| KeyValuePattern.MatchKeyValueSound | gsheet_strings_syncer.py:143-145 | every match the matcher reports is a real decomposition of the line into quote, key, quote, spaces, `=`, spaces, quote, value and `";`, and the groups are the key and the value of that decomposition |
| KeyValuePattern.MatchKeyValueComplete | gsheet_strings_syncer.py:143-144 | every line the pattern matches somewhere gives a match |
| KeyValuePattern.MatchNeedsQuote | gsheet_strings_syncer.py:142-144 | a matching line holds a quote and a semicolon, so the `'"' in line` test never hides a match |
| KeyValuePattern.EntryLine | gsheet_strings_syncer.py:237 | the line `"{key}" = "{value}";` the download writes; `EntryLineMatches` states that the pattern reads it back |
| KeyValuePattern.EntryLineMatches | gsheet_strings_syncer.py:143-145 | the line `"k" = "v";` matches with key `k` and value `v` when neither holds a quote or a line break |
| KeyValuePattern.ExampleSimple | gsheet_strings_syncer.py:143-145 | `"k" = "v";` gives key `k` and value `v` |
| KeyValuePattern.ExampleQuoteInKey | gsheet_strings_syncer.py:143-145 | the key group is lazy but must be followed by `" = "`, so `"a"b" = "c";` gives key `a"b` |
| KeyValuePattern.ExampleNoSemicolon | gsheet_strings_syncer.py:143-144 | a line without the closing `";` gives no match |
| StringsParser.WithComment | gsheet_strings_syncer.py:97-102 | combining: a comment after a comment is joined to it with a line break. Otherwise it is added as a new last line, and the other lines are kept |
| StringsParser.Parser.constructor | gsheet_strings_syncer.py:109-113 | the parser starts with no lines, no entries, no pending comment and no header |
| StringsParser.Parser.AppendComment | gsheet_strings_syncer.py:97-102 | `append_comment` changes `lines` in place as `WithComment` describes, and nothing else |
| StringsParser.Parser.ParseLine | gsheet_strings_syncer.py:115-148 | one pass of the loop changes the parser's state as `Step` describes |
| StringsParser.ParseLocalizableFile | gsheet_strings_syncer.py:105-150 | the loop over the file's lines returns `Parse` of them |
| StringsParser.OpeningLineRestartsComment | gsheet_strings_syncer.py:120-121 | a line starting `/*` discards any pending comment and starts a new one with the line |
| StringsParser.CloseBlock | gsheet_strings_syncer.py:124-129 | a closed block comment becomes the header when there is none, and goes through `append_comment` otherwise; `ClosingLineEndsComment` states both cases |
| StringsParser.ClosingLineEndsComment | gsheet_strings_syncer.py:122-129 | a line ending `*/` ends the pending comment. The comment becomes the header when there is none yet, and a comment otherwise |
| StringsParser.PendingCommentAbsorbsLine | gsheet_strings_syncer.py:130-131 | while a block is open, any other line, a key/value line included, is added to the block |
| StringsParser.LineCommentIsAppended | gsheet_strings_syncer.py:133-135 | outside a block comment, a `//` line goes through `append_comment` unchanged, and nothing else changes |
| StringsParser.BlankLineIsAppended | gsheet_strings_syncer.py:137-139 | outside a block comment, a blank line goes through `append_comment` as the empty-line marker, and nothing else changes |
| StringsParser.KeyValueLine | gsheet_strings_syncer.py:142-148 | a matching key/value line outside any comment adds one entry and sets the key in the dictionary; a line that does not match is dropped |
| StringsParser.EntryMapLastEntry | gsheet_strings_syncer.py:147-148 | in the dictionary built from the lines, a key is present exactly when an entry has it, and its value is that of the last such entry |
| StringsParser.WithCommentKeepsEntries | gsheet_strings_syncer.py:97-102 | adding a comment changes neither the entries nor the dictionary they build |
| StringsParser.AppendEntry | gsheet_strings_syncer.py:147-148 | appending an entry adds one key/value and overrides that key |
| StringsParser.StepKeepsDict | gsheet_strings_syncer.py:115-148 | each line keeps the dictionary equal to the one the listed entries build |
| StringsParser.OnlyKeyValueLinesAddEntries | gsheet_strings_syncer.py:115-139 | comment, block and blank lines add no entry and leave the dictionary alone |
| StringsParser.RunPrefix | gsheet_strings_syncer.py:115-148 | the state after the first `n` lines; `RunKeepsDict`, `RunKeepsApart` and `RunKeepsHeader` state what it keeps |
| StringsParser.RunKeepsDict | gsheet_strings_syncer.py:115-148 | after any number of lines the dictionary is the one the listed entries build |
| StringsParser.Parse | gsheet_strings_syncer.py:105-150 | the document after every line; `ParsedDictIsLastEntry`, `CombinedCommentsAreApart` and `HeaderIsKept` state its properties |
| StringsParser.ParsedDictIsLastEntry | gsheet_strings_syncer.py:105-150 | in a parsed file, a key is in the dictionary exactly when an entry has it, with the value of its last entry |
| StringsParser.WithCommentKeepsApart | gsheet_strings_syncer.py:97-102 | combining never leaves two comments next to each other |
| StringsParser.StepKeepsApart | gsheet_strings_syncer.py:115-148 | with combining on, no line puts two comments next to each other |
| StringsParser.RunKeepsApart | gsheet_strings_syncer.py:115-148 | with combining on, no prefix of the file produces adjacent comments |
| StringsParser.CombinedCommentsAreApart | gsheet_strings_syncer.py:105-150 | the reference file, parsed with combining, never has two comments next to each other |
| StringsParser.Step | gsheet_strings_syncer.py:115-148 | one pass of the loop over the file's lines; reading a line never changes a header that is already set |
| StringsParser.HeaderIsKept | gsheet_strings_syncer.py:124-127 | once the first closed block comment sets the header, no later line changes it |
| StringsParser.RunKeepsHeader | gsheet_strings_syncer.py:124-127 | a header that is set after some lines is still set after the next one |
| StringsParser.SelfClosedLineIsComplete | gsheet_strings_syncer.py:120-129 | under the corrected rule, a one-line block comment is complete at once: it becomes the header or a comment, and nothing stays pending |
| StringsParser.RulesAgreeElsewhere | gsheet_strings_syncer.py:115-148 | the corrected rule treats every other line exactly as the code does |
| ParserScenarios.OneLineHeaderSwallowsFile | gsheet_strings_syncer.py:120-131 | a file opening with `/* Header */`, then a note, two entries and a blank line, parses to an empty document |
| ParserScenarios.SelfClosingHeaderScenario | gsheet_strings_syncer.py:115-148 | under the corrected rule, the same file gives the header, the note, both entries with decoded values, the blank marker and the dictionary |
| ParserScenarios.DecodeGreeting | gsheet_strings_syncer.py:53-54 | the escaped line break in `Hello\nWorld` decodes to a real one |
| SheetGrid.Lookup | gsheet_strings_syncer.py:173 | `dict.get(key, "")` is the key's value when present, `""` otherwise |
| SheetGrid.CommentCell | gsheet_strings_syncer.py:181 | a comment line's text, `""` for an entry |
| SheetGrid.KeyCell | gsheet_strings_syncer.py:186 | an entry's key, `""` for a comment |
| SheetGrid.TranslationCell | gsheet_strings_syncer.py:173-174 | the translation's value for an entry's key, `""` for a comment or a missing key; `UploadedRowCells` states where it lands |
| SheetGrid.CommentsColumn | gsheet_strings_syncer.py:181-182 | column A is one cell per reference line plus the headings `Comments` and the literal `Header` |
| SheetGrid.KeysColumn | gsheet_strings_syncer.py:186-187 | column B is one cell per reference line plus the headings `Key` and `""` |
| SheetGrid.LanguageLabel | gsheet_strings_syncer.py:172 | the heading `{code} - {name}` that `TranslationColumn` puts in row 1 |
| SheetGrid.TranslationColumn | gsheet_strings_syncer.py:170-175 | a language column is one cell per reference line plus the heading `{code} - {name}` and the translation's header |
| SheetGrid.UploadToSheets | gsheet_strings_syncer.py:153-158 | the update of one column: its cells under the range of that column from row 1 to the number of cells; `UploadPlanWritesColumns` states it for every update |
| SheetGrid.UploadKeys | gsheet_strings_syncer.py:179-188 | the keys step writes two columns, A and B, over the whole height |
| SheetGrid.UploadTranslation | gsheet_strings_syncer.py:170-176 | a translation is written to its column over the whole height |
| SheetGrid.UploadColumns | gsheet_strings_syncer.py:191-203 | the sheet has two columns more than there are languages |
| SheetGrid.UploadLocalizableFiles | gsheet_strings_syncer.py:191-203 | the loop issues the keys' updates and then one update per language from column 3 |
| SheetGrid.UploadPlan | gsheet_strings_syncer.py:191-203 | the updates made after the keys and the first `n` languages, in order; `UploadPlanWritesColumns`, `UploadPlanColumn` and `UploadPlanStep` state its properties |
| SheetGrid.UploadPlanWritesColumns | gsheet_strings_syncer.py:153-154 | the `j`-th update sends column `j` of the sheet whole, and labels its range with column `j + 1` from row 1 to the last row |
| SheetGrid.UploadPlanColumn | gsheet_strings_syncer.py:153-154 | after the first `n` languages, update `j` sends column `j` under the range of column `j + 1` |
| SheetGrid.UploadPlanStep | gsheet_strings_syncer.py:199-203 | one more language adds exactly one update, for its own column, after the earlier ones |
| SheetGrid.ColumnsShareHeight | gsheet_strings_syncer.py:175-187 | all uploaded columns have the same height, two rows more than the reference has lines |
| SheetGrid.OverlayRow | gsheet_strings_syncer.py:153-158 | a row after the update: cell `c` reads as cell `r` of column `c` for the written columns, and as before for the others |
| SheetGrid.Overlay | gsheet_strings_syncer.py:153-158 | the earlier sheet after the updates: written cells read as their columns, other cells of the written rows as before, and the rows below the written ones are kept whole |
| SheetGrid.UploadedRows | gsheet_strings_syncer.py:191-203 | the earlier sheet with every uploaded column written over its first rows; nothing clears the rest |
| SheetGrid.StaleRows | gsheet_strings_syncer.py:153-158 | the rows of the earlier sheet below the uploaded ones, unchanged, or none when the earlier sheet is no taller |
| SheetGrid.DownloadRange | gsheet_strings_syncer.py:208 | the range `{sheet}!A1:{L(columns)}`; `DownloadRangeDecodes` states that it reads back as the column count |
| SheetGrid.DownloadRangeDecodes | gsheet_strings_syncer.py:206-208 | the download fetches `{sheet}!A1:` and letters that read back as the column count |
| SheetGrid.OutputPath | gsheet_strings_syncer.py:220 | the path `{code}.lproj/{file}` under the resources folder |
| SheetGrid.RowText | gsheet_strings_syncer.py:230-237 | a row with a comment writes the comment with blank markers removed. A row without one writes the entry line of its key and encoded value when both are set, and nothing otherwise |
| SheetGrid.FileText | gsheet_strings_syncer.py:224-237 | the header line, then each data row's text, for the rows read so far; `FileTextOfPrefix` and `FileTextOfLines` state its properties |
| SheetGrid.HeaderText | gsheet_strings_syncer.py:225-227 | the header line when the header cell is not empty, and nothing otherwise |
| SheetGrid.RenderedFile | gsheet_strings_syncer.py:225 | reading the header row fails exactly when the sheet has fewer than two rows |
| SheetGrid.DownloadLocalizableFile | gsheet_strings_syncer.py:222-237 | the row loop writes the header line, then each data row's text, so it returns `RenderedFile` |
| SheetGrid.WriteRow | gsheet_strings_syncer.py:230-237 | one pass of the row loop appends the row's text |
| SheetGrid.DownloadPrefix | gsheet_strings_syncer.py:218-237 | the files of the first `n` languages, stopping at the first error; `DownloadPrefixOutcome`, `DownloadPrefixFile` and `DownloadErrorStops` state its properties |
| SheetGrid.DownloadAll | gsheet_strings_syncer.py:213-238 | the files of every language; `DownloadAllFiles` states what they are |
| SheetGrid.DownloadAllFiles | gsheet_strings_syncer.py:213-238 | the download fails, with the `IndexError` message, exactly when there are languages and no header row; otherwise it gives one file per language, at `{code}.lproj/{file}`, holding that language's rendering from column `index` |
| SheetGrid.DownloadPrefixOutcome | gsheet_strings_syncer.py:217-225 | the loop over the first `n` languages fails exactly when `n > 0` and the sheet has no header row; otherwise it gives `n` files |
| SheetGrid.DownloadPrefixFile | gsheet_strings_syncer.py:217-237 | the `i`-th file is written at `{code}.lproj/{file}` for the `i`-th language and holds the rendering of column `i + 2` |
| SheetGrid.DownloadErrorStops | gsheet_strings_syncer.py:225 | once a language fails, the loop ends with that error and writes no later file |
| SheetGrid.DownloadLocalizableFiles | gsheet_strings_syncer.py:213-238 | the language loop returns `DownloadAll` |
| SheetGrid.RowTextIsOneLine | gsheet_strings_syncer.py:230-237 | a row writes nothing (exactly when it has no comment and lacks the key or the value), its comment, or one entry line with a non-empty key and value |
| SheetGrid.WrittenEntryReadsBack | gsheet_strings_syncer.py:143-145 | the parser's pattern reads back the written entry line with the same key and the encoded value. The encoded value decodes to the cell, when there are no quotes, no line break in the key and no backslash in the value |
| SheetGrid.ClippedRowReadsAlike | gsheet_strings_syncer.py:208 | fetching only columns A to the last language changes nothing that is written |
| SheetGrid.PaddedRowReadsAlike | gsheet_strings_syncer.py:230-232 | empty cells at the end of a row change nothing that is written |
| SheetGrid.TrailingEmptyRowsWriteNothing | gsheet_strings_syncer.py:229 | empty rows at the end of the sheet change nothing that is written |
| SheetGrid.EmptyRowWritesNothing | gsheet_strings_syncer.py:229-237 | one empty row at the end of the sheet changes nothing that is written |
| SheetGrid.FileTextOfPrefix | gsheet_strings_syncer.py:229 | the text of the first rows depends on those rows only |
| SheetGrid.RowTextOfCells | gsheet_strings_syncer.py:229-237 | a row's text depends only on its comment, key and value cells |
| SheetGrid.FileTextOfAlikeRows | gsheet_strings_syncer.py:224-237 | two sheets with the same header cell whose rows write the same texts give the same file |
| SheetGrid.UploadedRowCells | gsheet_strings_syncer.py:170-187 | whatever the earlier sheet held, data row `k` of the uploaded sheet holds reference line `k`'s comment, its key and the language's value for it |
| SheetGrid.RowTextOfLine | gsheet_strings_syncer.py:230-237 | a row holding a reference line's cells writes that line's comment or entry line |
| SheetGrid.FileTextOfLines | gsheet_strings_syncer.py:222-237 | rows that each write their reference line render as the header followed by those lines, in order |
| SheetGrid.UploadThenDownload | gsheet_strings_syncer.py:153-237 | upload over any earlier sheet, then download: each language's file is the file of a fresh upload with the earlier sheet's rows below the uploaded ones appended, so keys left there by a longer earlier upload come back |
| SheetGrid.UploadedRowAlike | gsheet_strings_syncer.py:153-158 | each row of an upload over an earlier sheet writes the same text, and holds the same header cell, as that row of a fresh upload with the stale rows appended |
| SheetGrid.UploadedRowsText | gsheet_strings_syncer.py:170-237 | the rows the upload writes render as the language's header, then the reference file's comments and keys in order, each key with that language's value; comments are written without blank markers, and keys missing in the language are left out |
| SheetGrid.UploadThenDownloadFresh | gsheet_strings_syncer.py:170-237 | on an earlier sheet no taller than the upload (an empty one included), each language's file is exactly that text |
| TranslationMerge.MergeColumns | chatgpt-translation_importer.py:116 | the number of columns fetched and written back, `2·languages + 2` |
| TranslationMerge.MetadataIndex | chatgpt-translation_importer.py:128 | the metadata column of language `li`, `2·li + 2` |
| TranslationMerge.ValueIndex | chatgpt-translation_importer.py:129 | the value column, just right of the metadata column |
| TranslationMerge.Key | chatgpt-translation_importer.py:136 | the key cell of a row |
| TranslationMerge.Suggestion | chatgpt-translation_importer.py:139 | `gpt_translations.get(key, {}).get(code, '')` is the suggestion when both levels have it, `""` otherwise |
| TranslationMerge.MergeUploadRange | chatgpt-translation_importer.py:149 | the final upload's range, columns 1 to `2·languages + 2` (:116) and every row; computed by `UploadChatgptTranslations` |
| TranslationMerge.Filled | chatgpt-translation_importer.py:102-108 | the list is extended to reach the index when too short, and holds the value at the index |
| TranslationMerge.FilledCells | chatgpt-translation_importer.py:102-108 | every other cell keeps its value, and every cell added to reach the index holds the fill |
| TranslationMerge.FilledReads | chatgpt-translation_importer.py:102-108 | with `""` as the fill, only the assigned cell reads differently |
| TranslationMerge.NeedsFill | chatgpt-translation_importer.py:136-138 | the row has a key and an empty value for the language |
| TranslationMerge.Fills | chatgpt-translation_importer.py:138-140 | such a row has a non-empty suggestion and so is filled; `FillRowCells` states what filling does |
| TranslationMerge.Reports | chatgpt-translation_importer.py:138-142 | such a row has no suggestion but its key is in the import, so it is reported; `LanguageReportsExactly` states which rows are reported |
| TranslationMerge.FillRow | chatgpt-translation_importer.py:136-146 | one row after one language's pass; `FillRowCells` states what it changes |
| TranslationMerge.FillRowCells | chatgpt-translation_importer.py:136-146 | for one row and language: with a key, no value and a suggestion, the value becomes the suggestion and the metadata the note. In every other case every cell reads as before |
| TranslationMerge.EmptyValueOutcomes | chatgpt-translation_importer.py:138-143 | a keyed row without a value is filled, or reported, or its key is not in the import, and never both filled and reported |
| TranslationMerge.LanguageReports | chatgpt-translation_importer.py:132-143 | the reports of one language's pass, in row order; `LanguageReportsExactly` states which rows they name |
| TranslationMerge.PartialFill | chatgpt-translation_importer.py:132-147 | the pass so far keeps the number of rows |
| TranslationMerge.PartialFillAt | chatgpt-translation_importer.py:132-147 | once the pass has reached row `n`, each data row before `n` is filled as `FillRow` says, and every other row is as fetched |
| TranslationMerge.FillLanguage | chatgpt-translation_importer.py:132-147 | a language's pass keeps the number of rows |
| TranslationMerge.MergeUpTo | chatgpt-translation_importer.py:125-147 | the passes keep the number of rows |
| TranslationMerge.SheetValues.constructor | chatgpt-translation_importer.py:118 | the grid holds the fetched rows |
| TranslationMerge.SheetValues.AssignWithFilling | chatgpt-translation_importer.py:102-108 | `assign_with_filling` changes one row in place as `Filled` describes |
| TranslationMerge.SheetValues.UploadChatgptTranslations | chatgpt-translation_importer.py:116-149 | the language loop leaves the grid as `Merge` describes and returns the reports in order. The upload range covers columns 1 to `2·languages + 2` and every row |
| TranslationMerge.SheetValues.FillLanguagePass | chatgpt-translation_importer.py:132-147 | the row loop applies one language's pass to every data row and returns its reports |
| TranslationMerge.SheetValues.FillOneRow | chatgpt-translation_importer.py:136-147 | one data row is filled, or reported, or left alone, as `FillRow` and `Reports` describe |
| TranslationMerge.FillStep | chatgpt-translation_importer.py:132-147 | moving the pass on by one row changes that row alone |
| TranslationMerge.Merge | chatgpt-translation_importer.py:125-147 | the grid after every language's pass; `MergeUpToCells`, `MergeNeverOverwritesValues`, `MergeKeepsOtherColumns` and `MergeIsIdempotent` state its properties |
| TranslationMerge.MergeReports | chatgpt-translation_importer.py:125-143 | the passes' reports in order; `MergeReportsReadFetchedSheet` states that each pass reports on the sheet as fetched |
| TranslationMerge.MergeKeepsHeadingRows | chatgpt-translation_importer.py:133-134 | the heading and header rows are never changed, nor is the number of rows |
| TranslationMerge.MergeUpToCells | chatgpt-translation_importer.py:125-147 | after the passes, a language's metadata or value cell is what that language's pass makes of the fetched row, and every other cell is as fetched |
| TranslationMerge.MergeFillsEmptyValues | chatgpt-translation_importer.py:136-146 | with a key, an empty value and a suggestion, the value becomes the suggestion and the metadata the note. Otherwise both cells are left as fetched |
| TranslationMerge.MergedLanguageCell | chatgpt-translation_importer.py:125-147 | a language's metadata and value cells after the merge are what that language's pass makes of the fetched row |
| TranslationMerge.MergeNeverOverwritesValues | chatgpt-translation_importer.py:138 | a non-empty value cell is never overwritten |
| TranslationMerge.MergeKeepsOtherColumns | chatgpt-translation_importer.py:123-129 | the comments, keys and every column past the languages' are left as they were |
| TranslationMerge.MergeIsIdempotent | chatgpt-translation_importer.py:125-147 | a second merge with the same import changes nothing |
| TranslationMerge.MergedRowsNeedNoFill | chatgpt-translation_importer.py:136-146 | after the merge, no data row is filled again for any language |
| TranslationMerge.MergeOfSettled | chatgpt-translation_importer.py:125-147 | a grid that no single pass changes is left alone by all of them |
| TranslationMerge.ReportsAgree | chatgpt-translation_importer.py:136-142 | which rows are reported depends only on their key and value cells |
| TranslationMerge.MergeReportsReadFetchedSheet | chatgpt-translation_importer.py:125-142 | each language's reports are those it would make on the sheet as fetched, whatever earlier passes filled |
| TranslationMerge.LanguageReportsExactly | chatgpt-translation_importer.py:136-142 | a pass reports exactly the data rows whose key is set and in the import, whose value is empty and which have no suggestion |
| TranslationMerge.ListedRowReports | chatgpt-translation_importer.py:136-142 | every report names a data row that is keyed, has no value, has its key in the import and has no suggestion |
| TranslationMerge.ReportedRowIsListed | chatgpt-translation_importer.py:136-142 | every such data row is reported |
| TranslationMerge.MetadataCellIsOverwritten | chatgpt-translation_importer.py:144-146 | a metadata cell that already held something is overwritten by the note when its value is filled |

`column_letter`, `item_or_empty`, `extract_sheet_id_from_url` and
`download_from_sheets` exist in both scripts, with the same text
(chatgpt-translation_importer.py:36-88). Each is modelled once.

## Left out

- Everything that talks to the world is not modelled:
  - the OAuth flow and its token file (`start_sheets_service`);
  - the Sheets API calls;
  - `print`;
  - opening, reading and writing files;
  - `json.load`;
  - `argparse`;
  - `main`.
- Downloads and uploads are modelled only by the rows they start from, and
  by the range and cells they send.
- The upload's log line reads `values[0][0]` after the update has been sent,
  and fails on an empty sheet. It is part of `print` and is left out.
- `Escaping.DecodeNewlines` / `Escaping.EncodeDecode`: `decode_escaped_string`
  (the `raw_unicode_escape`/`unicode_escape` codec) is a parameter of the
  parser, and `DecodeNewlines` only turns backslash-n into a line break. The
  round trips are proved for it, under the conditions stated, and not for the
  real codec. `EncodeDecode` is false for the real codec: it decodes
  backslash-t to a tab, which does not encode back.
- `StringsParser.Step`: the `decode` parameter is a total function, but
  `decode_escaped_string` (gsheet_strings_syncer.py:53-54, called at :146)
  raises `UnicodeDecodeError` on some values, such as `C:\Users` (a `\U`
  without eight hex digits) or a value ending in a lone backslash
  (`"k" = "a\";`). Nothing catches it, so the parse stops there. An error in
  the reference file raises at gsheet_strings_syncer.py:194, before any update
  is sent. An error in a later language's file raises at :202, after columns A
  and B and the earlier languages have been sent (:197-203). `Step`, `RunPrefix` and `Parse`
  always return a state, so the model does not capture this error.
- `SheetGrid.DownloadAllFiles` / `SheetGrid.DownloadPrefixOutcome`: on a sheet
  with fewer than two rows the result is the `IndexError` and no file. On disk,
  the first language's file has already been opened for writing at
  gsheet_strings_syncer.py:222, and so emptied, before `values[1]` at :225
  raises. The model does not record that emptied file.
- A comment line before an entry, such as `// Metadata: …`, stays an
  ordinary comment. Neither the scripts nor the model attach it to the entry.
- What the Sheets service does to the cells is not modelled:
  - the rows it returns for a range;
  - its trimming of empty trailing cells and rows;
  - value input options.
  - The lemmas `ClippedRowReadsAlike`, `PaddedRowReadsAlike` and
    `TrailingEmptyRowsWriteNothing` show that the trimming does not change
    the files written.
- `SheetGrid.UploadLocalizableFiles` takes the parsed reference and
  translations as parameters. Its contract does not say that the reference is
  the first language's file parsed with combining (gsheet_strings_syncer.py:193-194)
  and each translation its language's file parsed without (:201-202).
- `item_or_empty` is only called with non-negative indices, so Python's
  negative indexing is not modelled.
- The imported JSON is taken to map keys to maps from codes to strings.
  Values of other JSON types are not modelled.
- The importer's rows are values in the model. The aliasing between `row`
  and `values[row_index]` in the Python loop is not modelled: each row is
  changed only through its own index, so the result is the same.
- `KeyValuePattern.MatchKeyValue`: soundness and completeness are proved, and
  `ValueEnd` states that the value group is the shortest one. That it picks
  the leftmost start and the shortest key group holds by construction, and is
  shown only by the example lemmas.
- `StringsParser.Parse` takes the lines as `readlines()` returns them, each
  with its line break. Reading the file into lines is not modelled.

## Findings

| source | as written | input that shows it | evidently intended | confidence | as-written member | corrected member |
|---|---|---|---|---|---|---|
| gsheet_strings_syncer.py:120-129 | a stripped line starting `/*` always opens a new block, even when it also ends `*/`, so a one-line block comment never closes and swallows every line after it | the file `/* Header */`, `// Note`, `"greeting" = "Hello\nWorld";`, a blank line, `"farewell" = "Bye";` parses to an empty document with no header, no lines and no entries | a line that both starts `/*` and ends `*/` is a complete block comment: the header when none is set, a comment otherwise | not executed | ParserScenarios.OneLineHeaderSwallowsFile | StringsParser.SelfClosedLineIsComplete |

In the model, `StringsParser.Step` takes the rule as a parameter:

- `AsWritten` is the code, and `StringsParser.Parser` runs it.
- `SelfClosing` is the corrected rule. `ParserScenarios.SelfClosingHeaderScenario`
  shows it on the same file, and `StringsParser.RulesAgreeElsewhere` proves
  it differs from the code only on one-line block comments.
