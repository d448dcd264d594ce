# PDF metadata editor: a verified model of its parsing core

PDFMetadataEditor converts the page-label and bookmark metadata that `pdftk dump_data`
prints for a PDF into an editable Markdown-like text, and converts that text back into
records that `pdftk update_info` can read. The work happens on lists of strings:

- **Numerals.** Counter styles turn a counting value into a page label: lower- and
  upper-case Roman, decimal, lower- and upper-case bijective base-26 letters, and
  `NoNumber`.
- **Range finder.** It locates the block of dump lines that mention a marker
  (`Bookmark`, `PageLabel`).
- **Two record scanners.** They read `Key: Value` lines between `BookmarkBegin` and
  `PageLabelBegin` delimiters into bookmarks and counters.
- **Page-label derivation.** It gives every counter a stop page and expands the counters
  into one label per page.
- **Text-form writers.** The `Metadata` class writes one form; the `forwardparsing.py`
  script writes another.
- **Reader.** `backwardparsing.py` reads the script's text form back: the counter blocks,
  the label of every page, and each bookmark's level, label and title. It then writes the
  raw records again.

The Dafny modules follow that structure:

| module | file | what it holds |
|---|---|---|
| `Results` | results.dfy | `Option`, `Result` and the error kinds (Python's exceptions folded into values) |
| `Text` | text.dfy | Python string and list operations the scripts rely on (`find`, `split`, `lstrip`, `int`, `str`, slicing, `itertools.batched`) |
| `Numerals` | numerals.dfy | `number_to_base_list`, the letter and Roman numerals, the style list |
| `Records` | records.dfy | `Counter` (a class: its `stop_at_page` is updated in place), counter values, `Bookmark`, their `__str__` lines |
| `RawScan` | rawscan.dfy | `find_text_range_in_list` and the two record scanners, as functions over scanner states |
| `PageLabels` | pagelabels.dfy | the label derivation of `_check_and_update_counter` and the default-counter rule |
| `MetadataDocument` | metadata.dfy | the `Metadata` class and its methods, each proved against the functions above |
| `ScriptLabels` | scriptlabels.dfy | the label list both scripts derive, proved equal to the class's derivation |
| `ForwardParsing` | forwardparsing.dfy | range finding, delimiter filtering, counter decoding, bookmark rendering, the whole text |
| `BackwardParsing` | backwardparsing.dfy | sections, counter blocks, the label-to-page map, bookmark lines, the raw records |
| `RoundTrips` | roundtrips.dfy | the text the forward script writes, read back by the backward script |

The parsers keep the source's imperative shape. `Metadata`'s methods append to the
`counters`, `bookmarks` and `labelList` fields and set each counter's `stopAtPage`. The
scanning loops, `number_to_base_list`, the letter numeral and the script loops are
`while` loops. Each of them is proved equal to a function of its inputs, and the
properties are proved about those functions.

## Model

| member | source | states |
|---|---|---|
| Numerals.NumberToBaseList | bookmarks.py:12-29 | Base below 2 or a negative number is an error. 0 gives `[0]`. Otherwise every digit lies in `[0, base)`, the leading digit is non-zero, and the digits read most significant first evaluate to the number. |
| Numerals.AlphaLowerShape | bookmarks.py:111-116 | The letter numeral consists of `a`..`z` only, and is empty exactly when n <= 0. |
| Numerals.AlphaLowerDecodes | bookmarks.py:111-116 | Reading the letters back as digits 1..26, most significant first, gives n for every n >= 0. |
| Numerals.AlphaLowerOnto | bookmarks.py:111-116 | Every string of `a`..`z` is the numeral of its value, so the encoding is a bijection. |
| Numerals.AlphaLowerExamples | bookmarks.py:111-116 | 1 is `a`, 26 is `z`, 27 is `aa`, 702 is `zz` and 703 is `aaa`. |
| Numerals.ToLowercaseAlphaNumeral | bookmarks.py:110-116 | The loop of `divmod(n - 1, 26)` steps, with its letters reversed, yields the letter numeral. |
| Numerals.ToUppercaseAlphaNumeral | bookmarks.py:118-120 | Yields the upper-cased letter numeral. It is all upper-case letters, and lowering it gives back the lower-case numeral. |
| Numerals.ToRoman | bookmarks.py:102-104 | Fails exactly for n <= 0. |
| Numerals.RomanShape | bookmarks.py:102-104 | For n >= 1 the numeral is a non-empty word over I, V, X, L, C, D, M. |
| Numerals.RomanExamples | bookmarks.py:102-104 | 4 is `IV`, 2024 is `MMXXIV`, and 0 fails. |
| Numerals.ParseStyle | bookmarks.py:55-58 | A style name is accepted exactly when it is in `counter_styles`, and the accepted style carries that name. |
| Numerals.StyleNameRoundTrip | bookmarks.py:33-40 | Each style's name is in the list and parses back to the same style. |
| Numerals.PageToLabel | bookmarks.py:60-82 | For the five styles that have a label function, the label fails exactly for a Roman style and n <= 0. |
| Numerals.LowercaseRomanIsLowered | bookmarks.py:98-104 | The lower-case Roman label is the upper-case label lowered. Upper-casing it gives the upper-case label back. |
| Records.Counter.constructor | bookmarks.py:42-58 | A new counter holds the given counting start, start page, style, prefix and stop page. |
| Records.CounterLinesReadBack | bookmarks.py:84-89 | Splitting each of the three `__str__` lines at `": "` gives its key and value back, and the values parse to the counter's page, start and style. |
| Records.BookmarkStringLevel | bookmarks.py:130-131 | The indentation `Bookmark.__str__` writes gives the level back as leading whitespace div 4 plus 1. |
| Records.IndentGivesLevel | backwardparsing.py:79-82 | For a line indented for `level` whose text does not start with whitespace, whitespace div 4 plus 1 gives `level`, and `lstrip` leaves exactly the text. |
| RawScan.FirstTrue | bookmarks.py:195 | `flags.index(True)`: the first true flag, or None when there is none. |
| RawScan.EndAfterLastTrue | bookmarks.py:196-198 | One past the last true flag, or None when there is none. |
| RawScan.FlagsRange | bookmarks.py:191-201 | Both searches fail together, exactly when no line contains the target. Otherwise the first and last containing lines bound the range, and no line outside it contains the target. |
| RawScan.FindTextRangeInList | bookmarks.py:187-202 | The result is (None, None) exactly when no line contains the target. Otherwise start < end, lines `start` and `end - 1` contain it, and no line before start or from end on does. |
| RawScan.Normalize | bookmarks.py:218-222 | A leading delimiter is dropped and a trailing one is ensured. It fails exactly on an empty range or one holding only the delimiter, where the deque subscripts raise. |
| RawScan.RunBookmarksAppend | bookmarks.py:229-264 | Running the bookmark scanner over two parts equals running it over the first, then the second. |
| RawScan.BookmarkFailureSticks | bookmarks.py:229-264 | Once the bookmark scanner has raised, no further line changes anything. |
| RawScan.BookmarkStepEmits | bookmarks.py:251-260 | A delimiter emits exactly one bookmark and any other line emits none. Bookmarks already emitted are kept. |
| RawScan.BookmarkPerDelimiter | bookmarks.py:229-264 | A run without error emits exactly one bookmark per delimiter line. The earlier bookmarks are kept, in order. |
| RawScan.TitleContinues | bookmarks.py:242-248 | While the last field seen is the title, header-less lines are appended to the title, each after a space, and nothing else changes. |
| RawScan.HeaderlessAfterNumberFails | bookmarks.py:249-250 | After a level or page-number field, a header-less line raises. |
| RawScan.UnknownBookmarkKeyIgnored | bookmarks.py:231-241 | A `key: value` line with any other key leaves the scanner unchanged. |
| RawScan.LevelStaysMissing | bookmarks.py:258-260 | After the reset, the level stays missing until a `BookmarkLevel` line sets it. |
| RawScan.MissingLevelAfterReset | bookmarks.py:252-264 | A record whose fields set no level raises at its closing delimiter. |
| RawScan.RunCountersAppend | bookmarks.py:285-321 | Running the page-label scanner over two parts equals running it over the first, then the second. |
| RawScan.CounterFailureSticks | bookmarks.py:285-321 | Once the page-label scanner has raised, no further line changes anything. |
| RawScan.CounterStepEmits | bookmarks.py:306-321 | A delimiter emits exactly one counter and any other line emits none. Counters already emitted are kept. |
| RawScan.CounterPerDelimiter | bookmarks.py:285-321 | A run without error emits exactly one counter per delimiter line. The earlier counters are kept, in order. |
| RawScan.OtherCounterLineFails | bookmarks.py:302-305 | Any non-delimiter line whose key is not one of the four page-label keys raises. |
| RawScan.UnknownStyleFails | bookmarks.py:295-301 | A style name outside the six supported ones raises. |
| RawScan.StyleInherited | bookmarks.py:280-317 | Accumulators are not reset. Lines that set no style keep the style, and every counter emitted over them carries the earlier style. |
| PageLabels.SpanLabels | bookmarks.py:340-353 | A span fails exactly when it is Roman, counts from 0 or below and has a page. Otherwise it has one label per page. |
| PageLabels.SpanLabelAt | bookmarks.py:342-348 | Label k of a span is the style's label of the counting value `from + k`. |
| PageLabels.DeriveUpToNext | bookmarks.py:338-353 | After the first i counters, counter i's span either extends the labels or stops the derivation with its error. |
| PageLabels.DeriveFailsIff | bookmarks.py:338-371 | The derivation fails exactly when one of the counters' spans cannot be rendered. |
| PageLabels.DeriveUpToPrefix | bookmarks.py:338-371 | Labels are only appended: every shorter derivation is a prefix of a successful longer one. |
| PageLabels.DeriveUpToLength | bookmarks.py:338-371 | For ascending counters starting at page 1, the first k counters label every page before the end of counter k - 1's span. |
| PageLabels.LabelsCoverDocument | bookmarks.py:338-371 | For ascending counters starting at page 1, the label list has exactly one label per page of the document. |
| PageLabels.LabelOfPage | bookmarks.py:338-371 | Page p in counter i's span is labelled with counter i's style at `startCountingFrom + (p - startAtPage)`. |
| PageLabels.SpanInLabels | bookmarks.py:338-371 | Counter i contributes `next.startAtPage - startAtPage` labels, or `pageAmount - startAtPage + 1` for the last, placed right after the pages before its start. |
| PageLabels.AppendedDefaultRelabelsDocument | bookmarks.py:326-336 | As written (see Findings): a decimal counter at page 5 plus the appended default counter gives 10 labels, and page 5 is labelled `V`, not `1`. |
| PageLabels.DeriveUpToExtend | bookmarks.py:338-353 | Counters appended at the end leave the spans of all but the last existing counter unchanged. |
| PageLabels.AppendedDefaultCounterLabels | bookmarks.py:326-371 | As written, for any counters whose first starts after page 1: the default counter goes last, the last existing counter's span runs back to page 1 and labels nothing, and the label list is the earlier counters' labels followed by I, II, … for every page of the document. It fails exactly when an earlier span does. |
| PageLabels.DefaultCounterFirstAscending | bookmarks.py:326-336 | Corrected rule (see Findings): with the default counter in front, counters starting after page 1 become ascending from page 1. |
| PageLabels.DefaultCounterFirstLabelsFrontPages | bookmarks.py:326-336 | Corrected rule (see Findings): with the default counter in front, the pages before the first counter are labelled I, II, … and the list covers the document. |
| PageLabels.DefaultCounterFirstKeepsLabels | bookmarks.py:326-336 | Corrected rule (see Findings): with the default counter in front, every page of an existing counter keeps that counter's label. |
| PageLabels.DefaultCounterFirstShifts | bookmarks.py:326-336 | Corrected rule (see Findings): with the default counter in front, the existing counters are unchanged: counter i becomes counter i + 1 with the same span. |
| MetadataDocument.DerivedStopsEndSpans | bookmarks.py:338-339 | After a successful derivation, each non-last counter's stop is the last page of its span. |
| MetadataDocument.AppendedDefaultCounterStops | bookmarks.py:326-339 | As written, when the default counter is appended, the last existing counter gets stop page 0 and the default counter keeps no stop. |
| MetadataDocument.DeriveFailureSticks | bookmarks.py:338-371 | The first span that raises stops the derivation. Later counters change nothing. |
| MetadataDocument.SpanLabelsError | bookmarks.py:342-348 | A span's error is the error of its first page. |
| MetadataDocument.NoNumberSpan | bookmarks.py:349-353 | A `NoNumber` span is the text `None`, once per page. |
| MetadataDocument.BookmarkMdLines | bookmarks.py:389-393 | One line per bookmark. The lines fail exactly when some bookmark's `page_number - 1` is outside the label list. |
| MetadataDocument.BookmarkMdLineLevel | bookmarks.py:389-393 | A written bookmark line gives its level back from its indentation, and `lstrip` leaves `- title label`. |
| MetadataDocument.CounterBlocksLayout | bookmarks.py:383-387 | Each counter takes exactly five lines, and counter i's block, numbered i, is at 5i. |
| MetadataDocument.Metadata.constructor | bookmarks.py:135-153 | A document starts with its page amount, counters, bookmarks and dump, and an empty label list. |
| MetadataDocument.Metadata.AddBookmark | bookmarks.py:204-205 | The bookmark is appended, and nothing else changes. |
| MetadataDocument.Metadata.AddCounter | bookmarks.py:207-208 | The counter is appended, and nothing else changes. |
| MetadataDocument.ReadBookmarkField | bookmarks.py:230-250 | One non-delimiter line updates the accumulators exactly as the bookmark scanner's step does. |
| MetadataDocument.Metadata.ScanBookmarkLine | bookmarks.py:229-264 | One line of the loop is one scanner step, and a delimiter appends the completed bookmark to `bookmarks`. |
| MetadataDocument.Metadata.ScanBookmarkLines | bookmarks.py:229-264 | The loop appends exactly the bookmarks the scanner emits and reports its error. |
| MetadataDocument.Metadata.CreateBookmarksFromPdfMetadatas | bookmarks.py:210-264 | `bookmarks` gains exactly the bookmarks the scanner finds in the dump's bookmark range, and its error is reported. |
| MetadataDocument.ReadCounterField | bookmarks.py:286-305 | One non-delimiter line updates the accumulators exactly as the page-label scanner's step does. |
| MetadataDocument.Metadata.AddNewCounter | bookmarks.py:310-317 | A fresh counter with no stop page is appended, and the labels and bookmarks are unchanged. |
| MetadataDocument.Metadata.ScanCounterLine | bookmarks.py:285-321 | One line of the loop is one scanner step, and a delimiter appends the completed counter. |
| MetadataDocument.Metadata.ScanCounterLines | bookmarks.py:285-321 | The loop appends exactly the counters the scanner emits, with no stops, and reports its error. |
| MetadataDocument.Metadata.ScanCountersInto | bookmarks.py:266-321 | The counters gain exactly those the scanner finds in the dump's page-label range. |
| MetadataDocument.Metadata.AppendSpanLabels | bookmarks.py:340-353 | The span's labels are appended, or on its error the label list is unchanged and the error is returned. |
| MetadataDocument.Metadata.AppendNumerals | bookmarks.py:342-348 | The label loop appends each page's label in turn, and the first page that fails stops it. |
| MetadataDocument.Metadata.SetStop | bookmarks.py:339 | Counter i's stop becomes the next counter's start page minus one, and no other counter's stop changes. |
| MetadataDocument.Metadata.UpdateCounter | bookmarks.py:338-353 | One iteration of the pairwise loop sets counter i's stop and appends its span, or reports that span's error. |
| MetadataDocument.Metadata.SetStopsAndLabels | bookmarks.py:338-371 | Appends the derivation's labels and reports its error. Every counter the derivation reached gets its stop, and the others keep theirs. |
| MetadataDocument.Metadata.CheckAndUpdateCounter | bookmarks.py:325-371 | When the first counter starts after page 1, a fresh default counter is appended after the others, which stay in place. Then the labels, the error and every counter's stop are those of the derivation over the counters. An empty counter list fails. |
| MetadataDocument.Metadata.CreateCountersFromPdfMetadatas | bookmarks.py:266-323 | Appends the counters scanned from the page-label range, then runs the derivation with the default counter appended when page 1 is uncovered. It gives the new labels, stops and error. A scan error leaves the labels and the earlier stops unchanged. |
| MetadataDocument.Metadata.ParsePdfMetadatas | bookmarks.py:179-185 | An empty dump fails, and nothing changes. Otherwise bookmarks are scanned first. A bookmark error leaves the counters, stops and labels unchanged. Otherwise the counters, labels, stops and error are those of the counter pass. |
| MetadataDocument.Metadata.ForwardParseCounters | bookmarks.py:383-387 | The counter blocks, five lines per counter, numbered from 0. |
| MetadataDocument.Metadata.ForwardParseBookmarks | bookmarks.py:389-393 | One line per bookmark with its page's label. Fails exactly when a page has no label. |
| MetadataDocument.Metadata.OutputToMd | bookmarks.py:373-381 | The header, the counter blocks, the bookmark heading and the bookmark lines, or the error of the first unlabelled page. |
| ForwardParsing.FindRangeInList | forwardparsing.py:7-15 | Fails exactly when no line contains the target. Otherwise it gives the first containing line and one past the last, and no line outside contains the target. |
| ForwardParsing.FindRangeAgrees | forwardparsing.py:7-15 | The script's finder and `Metadata.find_text_range_in_list` give the same range, and the script raises where the method returns (None, None). |
| ForwardParsing.PageAmountOf | forwardparsing.py:29-34 | The page amount is the value on the first `NumberOfPages` line, or 0 when there is none. |
| ForwardParsing.FindPageAmount | forwardparsing.py:29-34 | The loop that breaks at the first `NumberOfPages` line computes that page amount. |
| ForwardParsing.Without | forwardparsing.py:36-45 | Filtering removes exactly the delimiter lines: the length drops by their count, and no delimiter is left. |
| ForwardParsing.WithoutKeepsOthers | forwardparsing.py:36-45 | Every other line is kept as often as it occurs. |
| ForwardParsing.WithoutAppend | forwardparsing.py:36-45 | Filtering keeps the order: filtering a concatenation concatenates the filtered parts. |
| ForwardParsing.WithoutAbsent | forwardparsing.py:36-45 | Lines without the delimiter are kept unchanged. |
| ForwardParsing.WithoutHeads | forwardparsing.py:36-45 | Records that each start with the delimiter lose exactly their head lines. |
| ForwardParsing.FieldValueOf | forwardparsing.py:73-74 | `int(line.split(": ")[1])` of a line `key: n` gives n. |
| ForwardParsing.StyleFieldOf | forwardparsing.py:75 | `".".join(line.split(": ")[1:])` of a line `key: style` gives the style. |
| ForwardParsing.DecodeRawCounter | forwardparsing.py:68-79 | A dump record's three lines decode to its counter, with the page stored 0-based. |
| ForwardParsing.DecodedCounterAt | forwardparsing.py:61-79 | Decoding succeeds only on whole groups of three, and counter k comes from lines 3k to 3k + 2. |
| ForwardParsing.CounterMdBlocksLayout | forwardparsing.py:81-87 | Each counter writes four lines, numbered from 0, and counter i's block is at 4i. |
| ForwardParsing.CounterMdBlocksSnoc | forwardparsing.py:81-87 | One more counter appends its block, numbered after the earlier ones. |
| ForwardParsing.DecodeCounterMetadata | forwardparsing.py:60-87 | The decoding loop yields the decoded counters and their blocks, or the decoding error. |
| ForwardParsing.RenderRawBookmark | forwardparsing.py:110-116 | A dump bookmark record renders as its indentation, `- (`, its page's label, `) ` and its title. |
| ForwardParsing.RenderedBookmarkAt | forwardparsing.py:105-116 | Rendering succeeds only on whole groups of three, and line k comes from lines 3k to 3k + 2. |
| ForwardParsing.RenderBookmarkMetadata | forwardparsing.py:104-116 | The rendering loop yields the rendered lines, or the error of the first group that fails. |
| ForwardParsing.ForwardParse | forwardparsing.py:27-116 | The script, step by step, yields the Markdown text of the dump or the error that stops it. |
| ScriptLabels.ScriptStyleNames | forwardparsing.py:97-102 | Exactly the two Roman styles and the decimal style render labels, each as the class's style of that name. |
| ScriptLabels.OtherStyleAddsNothing | forwardparsing.py:97-102 | A counter of any other style adds no label. |
| ScriptLabels.ScriptLabelsFailed | forwardparsing.py:92-102 | Once a span raises, longer derivations fail with the same error. |
| ScriptLabels.SpanAgrees | forwardparsing.py:95-102 | Each script span is the class's span of the same counter. |
| ScriptLabels.ScriptLabelsAgree | forwardparsing.py:89-102 | For counters in rendered styles, the scripts' label list equals the `Metadata` class's derivation, errors included. |
| ScriptLabels.ScriptLabelOfPage | forwardparsing.py:89-102 | For ascending counters, 0-based page q in counter i's range is labelled with its style at `start + (q - page)`, and there is one label per page. |
| ScriptLabels.DeriveScriptLabels | backwardparsing.py:55-69 | The label loop yields the script label list, or the error of the first span that raises. |
| BackwardParsing.LineIndex | backwardparsing.py:21-22 | `lines.index(x)`: the first position of x. It fails exactly when x is absent. |
| BackwardParsing.LineIndexAfter | backwardparsing.py:21-22 | A heading absent from the lines before it is found at its own position. |
| BackwardParsing.PySlice | backwardparsing.py:24-27 | Python slicing: within bounds it is the plain subsequence, a negative end counts from the end, an end past the length is clamped to it, and an end at or before the start gives nothing. |
| BackwardParsing.ReadHeader | backwardparsing.py:13-19 | Succeeds only when the text has line 6 and it reads as the page amount. |
| BackwardParsing.ReadCounterAt | backwardparsing.py:36-41 | Reading succeeds only on whole groups of four, and counter k comes from lines 4k to 4k + 3. |
| BackwardParsing.PageLabelRecordsLayout | backwardparsing.py:43-48 | Each counter emits exactly four record lines, and counter i's are at 4i. |
| BackwardParsing.ReadCounterSection | backwardparsing.py:36-48 | The counter loop yields the counters and their raw records, or the reading error. |
| BackwardParsing.LabelIndex | backwardparsing.py:71-73 | The map holds exactly the labels of the list, each mapped to its last position. |
| BackwardParsing.LabelIndexIsLast | backwardparsing.py:71-73 | A label's page is its last occurrence in the list. |
| BackwardParsing.LabelledTitle | backwardparsing.py:82-85 | The label ends at the first `)`. A known label gives the title after it, `lstrip`ped, the given level and the label's position plus one as the page. An unknown label or a missing `)` fails. |
| BackwardParsing.BookmarkRecordsLayout | backwardparsing.py:87-92 | Each bookmark emits exactly four record lines, and bookmark i's are at 4i. |
| BackwardParsing.ConvertBookmarkLines | backwardparsing.py:77-92 | The bookmark loop yields the parsed bookmarks and their records, or the first line's error. |
| BackwardParsing.BackwardParse | backwardparsing.py:8-97 | The script, step by step, yields the records and the `output.info` text as written, or the error that stops it. |
| BackwardParsing.InfoTextAsWrittenFusesLines | backwardparsing.py:95-97 | As written, the text read back line by line has one line fewer: the last bookmark line and the first page-label line are fused. |
| BackwardParsing.InfoTextAsWrittenLosesPageLabelBegin | backwardparsing.py:95-97 | As written, the fused line is `BookmarkPageNumber: p` immediately followed by `PageLabelBegin`. |
| BackwardParsing.InfoTextSplitsIntoRecords | backwardparsing.py:95-97 | Corrected: the text read back line by line is exactly the bookmark records, then the page-label records. |
| RoundTrips.CounterBlockReadBack | backwardparsing.py:36-41 | A counter block the forward script writes reads back as the same counter. |
| RoundTrips.CountersReadBack | backwardparsing.py:36-41 | The whole counter section reads back as the counters it was written for. |
| RoundTrips.LabelThenTitle | backwardparsing.py:82-85 | After `- (`, the first `)` ends the label, and `lstrip` of the rest gives the title. |
| RoundTrips.BookmarkLineParses | backwardparsing.py:79-85 | A line for a known label parses to its title, its level and that label's page. |
| RoundTrips.BookmarkLineReadBack | backwardparsing.py:79-85 | A rendered line reads back as its level, title and page. This needs level >= 1, no `)` in the label, no leading whitespace in the title, and the page being the label's last page. |
| RoundTrips.WrittenLineReadBack | backwardparsing.py:79-85 | Bookmark line k of the written text reads back as bookmark k. |
| RoundTrips.BookmarksReadBack | backwardparsing.py:77-85 | The written bookmark lines read back as the bookmarks. |
| RoundTrips.HeaderReadBack | backwardparsing.py:13-19 | The header the forward script writes reads back, and its page amount line gives the page amount. |
| RoundTrips.LocationsReadBack | backwardparsing.py:13-18 | The four location lines read back as the four locations. |
| RoundTrips.HeaderHeadings | forwardparsing.py:50-60 | The header ends with `# Counters`, holds it nowhere before, and holds no `# Bookmarks`. |
| RoundTrips.SectionsAt | backwardparsing.py:21-27 | Slicing around the two headings gives back exactly the counter lines and the bookmark lines written. |
| RoundTrips.DocumentReadBack | backwardparsing.py:13-92 | The whole written text reads back as the bookmark and page-label records of the bookmarks and counters it was written for. |
| RoundTrips.RawCounterHeadless | forwardparsing.py:41-45 | No line of a counter's record body is the `PageLabelBegin` delimiter. |
| RoundTrips.RawBookmarkHeadless | forwardparsing.py:36-40 | No line of a bookmark's record body is the `BookmarkBegin` delimiter. |
| RoundTrips.CounterRecordsDecode | forwardparsing.py:41-79 | Page-label records, filtered and decoded, give back the counters. |
| RoundTrips.BookmarkRecordsRender | forwardparsing.py:104-116 | Bookmark records, filtered and rendered, give the bookmark lines of the text. |
| RoundTrips.ScriptsRoundTrip | forwardparsing.py:27-116 | Suppose a dump's bookmark and page-label ranges hold records of readable bookmarks and counters. Then the forward script succeeds, and the backward script turns its text into exactly the records of those two ranges. |
| Text.IndexOf | backwardparsing.py:83 | `str.find`: the first position where the pattern occurs, or None when it occurs nowhere. |
| Text.SplitOnce | bookmarks.py:231 | `split(": ", maxsplit=1)` gives one part exactly when the separator is absent, and joining the parts gives the line back. |
| Text.SplitAll | forwardparsing.py:73-75 | `split(sep)` gives at least one part, and joining the parts with sep gives the string back. |
| Text.SplitAfterKey | bookmarks.py:287 | A line `key: value` with a colon-free key splits right after the key. |
| Text.LeadingSpaces | backwardparsing.py:79-81 | The number of leading whitespace characters: all of them are whitespace, and the next one is not. |
| Text.Spaces | forwardparsing.py:115 | `' ' * n`: n spaces, none when n <= 0. |
| Text.PyIndex | forwardparsing.py:112 | A list subscript succeeds exactly within `[-len, len)`. It gives the element at i, or at len + i for a negative i. |
| Text.ParseDecimalString | forwardparsing.py:73-74 | `int(str(n)) == n`. |
| Text.MapEach | backwardparsing.py:77-92 | On success, one value per line from that line. On failure, the error of the first line that fails. |
| Text.BatchedLength | forwardparsing.py:61-71 | When a batch unpacks only with n lines, a successful run has one value per n lines. |
| Text.BatchedAt | forwardparsing.py:61-71 | Value k of a successful run comes from lines nk to nk + n - 1. |
| Text.BatchedFlatten | backwardparsing.py:36-38 | Blocks of n lines, each converting to a value, convert batch by batch to those values. |
| Text.SplitJoinLines | backwardparsing.py:8-9 | Lines joined with newlines split back into the same lines. |

## Left out

- Running `pdftk` and other subprocesses is left out (bookmarks.py:159, forwardparsing.py:19, backwardparsing.py:100). So is `Metadata.construct_metadata_from_pdf`, which only runs `pdftk` and reads the page amount with the range finder. These are foreign processes.
- File reads and writes are not modelled. Every writer produces its lines as a `seq<string>` instead. Whatever the scripts have written to a file before an error is not modelled; only the error is.
- `test.py` is not part of this model: it only drives `pdftk` and file output.
- `warnings.warn` (bookmarks.py:245-248, 327-329) and `print` (backwardparsing.py:51-53) are left out, since they change no state.
- `Counter.__repr__` is left out: nothing in the core calls it.
- `Metadata.__init__`'s mutable default arguments and its `isinstance` dispatch between list and deque are left out. Every document gets its own sequences.
- Numerals.ToRoman: the `roman` library is not part of this model, and ToRoman is given a greedy numeral table as its body. Its contract states only that it fails exactly for n <= 0. The library's upper bound on n is not modelled.
- Python's `int()` is modelled as a parser of an optional `-` and decimal digits. Leading and trailing spaces, `+` and underscores, which Python also accepts, are refused.
- Python's exception classes (`KeyError`, `TypeError`, `SyntaxError`, `ValueError`, `ArithmeticError`, `IndexError`) are folded into the error kinds of `Results.Error`.
- The line numbers in the source's error messages are not modelled.
- The forward script keeps decimal labels as ints and the backward script as strings. Both print the same text, so the model keeps strings for both.
- The scripts' three parallel lists (pages, starts, styles) are one `ScriptCounter` per counter.
- The backward script's label-to-page map keeps the last page of a label that occurs twice. RoundTrips.BookmarkLineReadBack therefore asks that a bookmark's page be the last page with its label.
- Titles with leading whitespace lose it to `lstrip` on the way back. The round-trip lemmas therefore ask that titles do not start with whitespace.
- Python's `str.isspace` is modelled on ASCII characters only.

## Findings

| source | as written | input that shows it | evidently intended | confidence | as-written member | corrected member |
|---|---|---|---|---|---|---|
| bookmarks.py:330 | The default Roman counter is appended after the existing counters, although the warning says it is added at the beginning. | One decimal counter starting at page 5 in a 10-page document. The decimal counter's span ends where the default counter starts (page 1), so it adds no label. The default counter, now last, labels all 10 pages I to X, so page 5 gets `V` and not `1`. | The default counter goes in front: pages 1 to 4 get I to IV, and every existing counter keeps its pages and labels. | not executed | PageLabels.AppendedDefaultRelabelsDocument | PageLabels.DefaultCounterFirstKeepsLabels |
| backwardparsing.py:96-97 | The bookmark records and the page-label records are written one after the other, with no newline between them. | One bookmark and one counter: the last line `BookmarkPageNumber: p` and `PageLabelBegin` become a single line, so the first page-label record loses its delimiter. | A newline between the two groups, so that each record line is a line of `output.info`. | not executed | BackwardParsing.InfoTextAsWrittenFusesLines | BackwardParsing.InfoTextSplitsIntoRecords |

The `Metadata` class and `BackwardParsing.BackwardParse` behave as the code is written: the
default counter is appended (`PageLabels.WithDefaultCounter`), and the two groups of records are
written with no newline between them (`BackwardParsing.InfoTextAsWritten`). The corrected forms,
`PageLabels.WithDefaultCounterFirst` and `BackwardParsing.InfoText`, carry the intended
properties.

## Notes on the source

- The letter numerals of 0 and below are the empty string, not an error.
- Header-less lines continue a bookmark title any number of times, as long as the last field was the title.
- A page-label record without a style is `NoNumber`. A later record inherits the fields that earlier records set.
- The style names are the six long names of `counter_styles`.
- The bookmark scanner starts with level and page 0, not missing. So a first record that sets neither still yields a bookmark.
