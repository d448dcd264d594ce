/**
  forwardparsing.py: from the lines of the metadata dump to the lines of the editable
  Markdown text. It locates the bookmark and page-label lines, reads the page amount, decodes
  the page-label records positionally in groups of three, derives the per-page labels, and
  writes one `- (label) title` line per bookmark.
 */
module ForwardParsing {
  import opened Results
  import opened Text
  import opened Records
  import opened RawScan
  import opened ScriptLabels

  // ---------------------------------------------------------------------------
  // Locating the records

  /**
    `find_range_in_list`: the first index of a line containing `targetStr` and one past the
    last such index. `.index(True)` raises when no line contains it.
   */
  function FindRangeInList(targetList: seq<string>, targetStr: string): (r: Result<(nat, nat)>)
    ensures r.Err? <==> NoLineContains(targetList, targetStr)
    ensures r.Ok? ==> IsTargetRange(targetList, targetStr, r.value.0, r.value.1)
  {
    var flags := ContainsFlags(targetList, targetStr);
    var start, end := FirstTrue(flags), EndAfterLastTrue(flags);
    FlagsRange(targetList, targetStr);
    if start.None? || end.None? then Err(MissingMarker(targetStr))
    else Ok((start.value, end.value))
  }

  /** The script's finder and `Metadata.find_text_range_in_list` agree wherever the script's does not raise. */
  lemma FindRangeAgrees(lines: seq<string>, target: string)
    ensures FindRangeInList(lines, target).Err? <==> FindTextRangeInList(lines, target).0.None?
    ensures FindRangeInList(lines, target).Ok? ==>
      FindTextRangeInList(lines, target) == (Some(FindRangeInList(lines, target).value.0), Some(FindRangeInList(lines, target).value.1))
  {
  }

  /** The comprehension `[text for text in lines if text != delimiter]`. */
  function Without(lines: seq<string>, delimiter: string): (r: seq<string>)
    ensures |r| == |lines| - Count(lines, delimiter)
    ensures forall k :: 0 <= k < |r| ==> r[k] != delimiter
  {
    if |lines| == 0 then []
    else
      var last := lines[|lines| - 1];
      Without(lines[..|lines| - 1], delimiter) + (if last == delimiter then [] else [last])
  }

  /** Filtering keeps every other line as often as it occurs. */
  lemma {:induction false} WithoutKeepsOthers(lines: seq<string>, delimiter: string, x: string)
    requires x != delimiter
    ensures Count(Without(lines, delimiter), x) == Count(lines, x)
  {
    if |lines| > 0 {
      var init := lines[..|lines| - 1];
      var last := lines[|lines| - 1];
      WithoutKeepsOthers(init, delimiter, x);
      CountAppend(Without(init, delimiter), if last == delimiter then [] else [last], x);
      if last == delimiter {
        assert Count([], x) == 0;
      } else {
        assert Count([last], x) == if last == x then 1 else 0 by {
          assert [last][..0] == [];
        }
      }
    }
  }

  /** Filtering keeps the order: filtering a concatenation concatenates the filtered parts. */
  lemma {:induction false} WithoutAppend(a: seq<string>, b: seq<string>, delimiter: string)
    ensures Without(a + b, delimiter) == Without(a, delimiter) + Without(b, delimiter)
    decreases |b|
  {
    if |b| == 0 {
      assert a + b == a;
    } else {
      var init := b[..|b| - 1];
      WithoutAppend(a, init, delimiter);
      assert (a + b)[..|a + b| - 1] == a + init;
    }
  }
  /** Filtering out a line that does not occur changes nothing. */
  lemma {:induction false} WithoutAbsent(lines: seq<string>, delimiter: string)
    requires delimiter !in lines
    ensures Without(lines, delimiter) == lines
  {
    if |lines| > 0 {
      WithoutAbsent(lines[..|lines| - 1], delimiter);
      assert lines == lines[..|lines| - 1] + [lines[|lines| - 1]];
    }
  }

  /**
    Records that each open with the delimiter line, and hold it nowhere else, lose exactly
    that line when filtered: what is left is their bodies one after another.
   */
  lemma {:induction false} WithoutHeads(records: seq<seq<string>>, delimiter: string, bodies: seq<seq<string>>)
    requires |bodies| == |records|
    requires forall k :: 0 <= k < |records| ==> records[k] == [delimiter] + bodies[k] && delimiter !in bodies[k]
    ensures Without(Flatten(records), delimiter) == Flatten(bodies)
    decreases |records|
  {
    if |records| > 0 {
      var n := |records| - 1;
      var init, last := records[..n], records[n];
      assert Without(Flatten(init), delimiter) == Flatten(bodies[..n]) by {
        forall k | 0 <= k < n ensures init[k] == [delimiter] + bodies[..n][k] && delimiter !in bodies[..n][k] {
          assert init[k] == records[k] && bodies[..n][k] == bodies[k];
        }
        WithoutHeads(init, delimiter, bodies[..n]);
      }
      assert Without(last, delimiter) == bodies[n] by {
        assert last == [delimiter] + bodies[n] && delimiter !in bodies[n];
        WithoutAppend([delimiter], bodies[n], delimiter);
        assert Without([delimiter], delimiter) == [] by {
          assert [delimiter][..0] == [];
        }
        WithoutAbsent(bodies[n], delimiter);
      }
      assert Flatten(records) == Flatten(init) + last;
      WithoutAppend(Flatten(init), last, delimiter);
      assert Flatten(bodies) == Flatten(bodies[..n]) + bodies[n];
    }
  }


  // ---------------------------------------------------------------------------
  // Reading `Key: value` lines

  /** The keys of the dump's page-label and bookmark records. */
  const NewIndexKey := "PageLabelNewIndex"
  const StartKey := "PageLabelStart"
  const NumStyleKey := "PageLabelNumStyle"
  const TitleKey := "BookmarkTitle"
  const LevelKey := "BookmarkLevel"
  const PageNumberKey := "BookmarkPageNumber"

  lemma RawKeys()
    ensures IsKey(NewIndexKey) && IsKey(StartKey) && IsKey(NumStyleKey)
    ensures IsKey(LevelKey) && IsKey(PageNumberKey)
  {
  }

  /** `int(line.split(": ")[1])`: the index fails without a ": ", `int` fails on other text. */
  function FieldValue(line: string): Result<int> {
    var parts := SplitAll(line, ": ");
    if |parts| < 2 then Err(IndexOutOfRange(1))
    else match ParseInt(parts[1])
      case None => Err(NotANumber(parts[1]))
      case Some(n) => Ok(n)
  }

  /** A line `key: n` gives n back. */
  lemma FieldValueOf(key: string, n: int)
    requires IsKey(key)
    ensures FieldValue(key + ": " + DecimalString(n)) == Ok(n)
  {
    SplitAfterKey(key, DecimalString(n));
    DecimalStringNoColon(n);
    SplitNoColon(DecimalString(n));
    ParseDecimalString(n);
  }

  const PageAmountKey := "NumberOfPages"

  /**
    The loop at forwardparsing.py:31-34 as a value: the number on the first line mentioning
    NumberOfPages, 0 when there is none.
   */
  function PageAmountOf(lines: seq<string>): (r: Result<int>)
    ensures (forall i :: 0 <= i < |lines| ==> !Contains(lines[i], PageAmountKey)) ==> r == Ok(0)
    ensures forall i :: (0 <= i < |lines| && Contains(lines[i], PageAmountKey) &&
      (forall j :: 0 <= j < i ==> !Contains(lines[j], PageAmountKey))) ==> r == FieldValue(lines[i])
  {
    if |lines| == 0 then Ok(0)
    else if Contains(lines[0], PageAmountKey) then FieldValue(lines[0])
    else
      assert forall i :: 1 <= i < |lines| ==> lines[1..][i - 1] == lines[i];
      PageAmountOf(lines[1..])
  }

  /** forwardparsing.py:29-34: scan for the page amount and stop at the first line that has it. */
  method FindPageAmount(lines: seq<string>) returns (r: Result<int>)
    ensures r == PageAmountOf(lines)
  {
    var i := 0;
    while i < |lines|
      invariant 0 <= i <= |lines|
      invariant PageAmountOf(lines) == PageAmountOf(lines[i..])
    {
      if Contains(lines[i], PageAmountKey) {
        return FieldValue(lines[i]);
      }
      assert lines[i..][1..] == lines[i + 1..];
      i := i + 1;
    }
    return Ok(0);
  }

  // ---------------------------------------------------------------------------
  // The counters (forwardparsing.py:60-87)

  /**
    One batch of page-label lines unpacked into the start page, the counting start and the
    style, which is every ": "-separated part after the first, joined with ".". Unpacking fails
    unless the batch has exactly three lines. The stored page is 0-based.
   */
  function DecodeCounterBatch(batch: seq<string>): Result<ScriptCounter> {
    if |batch| != 3 then Err(ShortGroup)
    else
      var page :- FieldValue(batch[0]);
      var start :- FieldValue(batch[1]);
      Ok(ScriptCounter(page - 1, start, Join(SplitAll(batch[2], ": ")[1..], ".")))
  }

  /** A page-label record as the dump writes it decodes to its counter, with a 0-based page. */
  lemma DecodeRawCounter(page: int, start: int, style: string)
    requires IsKey(style)
    ensures DecodeCounterBatch([NewIndexKey + ": " + DecimalString(page), StartKey + ": " + DecimalString(start),
      NumStyleKey + ": " + style]) == Ok(ScriptCounter(page - 1, start, style))
  {
    RawKeys();
    RawCounterLinesDecode(NewIndexKey, StartKey, NumStyleKey, page, start, style);
  }

  /** Three `key: value` lines for a page, a start and a style decode as the counter. */
  lemma RawCounterLinesDecode(pageKey: string, startKey: string, styleKey: string, page: int, start: int, style: string)
    requires IsKey(pageKey) && IsKey(startKey) && IsKey(styleKey) && IsKey(style)
    ensures DecodeCounterBatch([pageKey + ": " + DecimalString(page), startKey + ": " + DecimalString(start),
      styleKey + ": " + style]) == Ok(ScriptCounter(page - 1, start, style))
  {
    FieldValueOf(pageKey, page);
    FieldValueOf(startKey, start);
    StyleFieldOf(styleKey, style);
  }

  /** A line `key: style` gives the style back, the way the scripts read the style line. */
  lemma StyleFieldOf(styleKey: string, style: string)
    requires IsKey(styleKey) && IsKey(style)
    ensures Join(SplitAll(styleKey + ": " + style, ": ")[1..], ".") == style
  {
    SplitAfterKey(styleKey, style);
    SplitNoColon(style);
    assert SplitAll(styleKey + ": " + style, ": ")[1..] == [style];
  }

  /** The page-label lines decoded three at a time. */
  function DecodeCounters(lines: seq<string>): Result<seq<ScriptCounter>> {
    Batched(lines, 3, DecodeCounterBatch)
  }

  /** Decoding succeeds only on whole batches, and counter k comes from lines 3k to 3k+2. */
  lemma DecodedCounterAt(lines: seq<string>, k: nat)
    requires DecodeCounters(lines).Ok?
    ensures 3 * |DecodeCounters(lines).value| == |lines|
    ensures k < |DecodeCounters(lines).value| ==>
      3 * k + 3 <= |lines| && DecodeCounterBatch(lines[3 * k..3 * k + 3]) == Ok(DecodeCounters(lines).value[k])
  {
    assert Unpacks(3, DecodeCounterBatch);
    BatchedLength(lines, 3, DecodeCounterBatch);
    if k < |DecodeCounters(lines).value| {
      BatchedAt(lines, 3, DecodeCounterBatch, k);
    }
  }

  /** The four Markdown lines written for counter number `index` (its page written 1-based again). */
  function CounterMdBlock(index: int, c: ScriptCounter): (r: seq<string>)
    ensures |r| == 4
  {
    [ "Counter " + DecimalString(index) + ":",
      PageLineKey + ": " + DecimalString(c.page + 1),
      StartLineKey + ": " + DecimalString(c.start),
      StyleLineKey + ": " + c.style ]
  }

  /** The keys of a counter block's lines. */
  const PageLineKey := "    - Start at absolute page"
  const StartLineKey := "    - Start counting from"
  const StyleLineKey := "    - Style"

  function CounterMdBlockList(cs: seq<ScriptCounter>): (r: seq<seq<string>>)
    ensures |r| == |cs|
  {
    seq(|cs|, k requires 0 <= k < |cs| => CounterMdBlock(k, cs[k]))
  }

  /** The counter section: the blocks of the counters, the k-th numbered k. */
  function CounterMdBlocks(cs: seq<ScriptCounter>): seq<string> {
    Flatten(CounterMdBlockList(cs))
  }

  /** Counter i's block is lines 4i to 4i+3 of the counter section. */
  lemma CounterMdBlocksLayout(cs: seq<ScriptCounter>, i: nat)
    requires i < |cs|
    ensures |CounterMdBlocks(cs)| == 4 * |cs|
    ensures CounterMdBlocks(cs)[4 * i..4 * i + 4] == CounterMdBlock(i, cs[i])
  {
    var xss := CounterMdBlockList(cs);
    assert forall k :: 0 <= k < |xss| ==> |xss[k]| == 4;
    assert xss[i] == CounterMdBlock(i, cs[i]);
    FlattenLayout(xss, 4, i);
  }

  /** One more counter adds its block, numbered after the ones before it. */
  lemma CounterMdBlocksSnoc(cs: seq<ScriptCounter>, c: ScriptCounter)
    ensures CounterMdBlocks(cs + [c]) == CounterMdBlocks(cs) + CounterMdBlock(|cs|, c)
  {
    var xss := CounterMdBlockList(cs + [c]);
    assert xss[..|cs|] == CounterMdBlockList(cs);
    assert xss[|cs|] == CounterMdBlock(|cs|, c);
  }

  /**
    forwardparsing.py:61-87: decode the batches one by one, collecting the counters and writing
    each one's block; the first batch that fails stops the script.
   */
  method DecodeCounterMetadata(counterMetadata: seq<string>) returns (counters: seq<ScriptCounter>, md: seq<string>, failure: Option<Error>)
    ensures failure.None? <==> DecodeCounters(counterMetadata).Ok?
    ensures failure.None? ==> counters == DecodeCounters(counterMetadata).value && md == CounterMdBlocks(counters)
    ensures failure.Some? ==> failure.value == DecodeCounters(counterMetadata).error
  {
    counters, md := [], [];
    var rest := counterMetadata;
    while |rest| > 0
      invariant DecodeCounters(counterMetadata) == After(counters, Batched(rest, 3, DecodeCounterBatch))
      invariant md == CounterMdBlocks(counters)
      decreases |rest|
    {
      var batch := if |rest| < 3 then rest else rest[..3];
      BatchedStep(rest, 3, DecodeCounterBatch);
      var c := DecodeCounterBatch(batch);
      if c.Err? {
        return counters, md, Some(c.error);
      }
      CounterMdBlocksSnoc(counters, c.value);
      md := md + CounterMdBlock(|counters|, c.value);
      AfterAfter(counters, [c.value], Batched(rest[|batch|..], 3, DecodeCounterBatch));
      counters := counters + [c.value];
      rest := rest[|batch|..];
    }
    return counters, md, None;
  }

  // ---------------------------------------------------------------------------
  // The bookmarks (forwardparsing.py:104-116)

  /** The length of "BookmarkTitle: ", which `[15:]` cuts off. */
  const TitlePrefixLength := 15

  /** A bookmark line of the Markdown text: indentation, `- (`, the page's label, `) ` and the title. */
  function BookmarkLine(level: int, pageLabel: string, title: string): string {
    Indent(level) + "- (" + pageLabel + ") " + title
  }

  /**
    One batch of bookmark lines unpacked into title, level and page. The label is
    `page_labels[page - 1]`, which counts from the end for page 0 and below and fails beyond
    the list. Unpacking fails unless the batch has exactly three lines.
   */
  function RenderBookmarkBatch(batch: seq<string>, labels: seq<string>): Result<string> {
    if |batch| != 3 then Err(ShortGroup)
    else
      var level :- FieldValue(batch[1]);
      var page :- FieldValue(batch[2]);
      match PyIndex(labels, page - 1)
      case None => Err(IndexOutOfRange(page - 1))
      case Some(pageLabel) => Ok(BookmarkLine(level, pageLabel, Drop(batch[0], TitlePrefixLength)))
  }

  /** A bookmark record of the dump is rendered with its title and the label of its page. */
  lemma RenderRawBookmark(title: string, level: int, page: int, labels: seq<string>)
    requires 1 <= page <= |labels|
    ensures RenderBookmarkBatch([TitleKey + ": " + title, LevelKey + ": " + DecimalString(level),
      PageNumberKey + ": " + DecimalString(page)], labels) == Ok(BookmarkLine(level, labels[page - 1], title))
  {
    RawKeys();
    FieldValueOf(LevelKey, level);
    FieldValueOf(PageNumberKey, page);
    assert |TitleKey + ": "| == TitlePrefixLength;
    assert (TitleKey + ": " + title)[TitlePrefixLength..] == title;
  }

  /** The conversion of one batch for the label list `labels`. */
  function RenderWith(labels: seq<string>): seq<string> -> Result<string> {
    batch => RenderBookmarkBatch(batch, labels)
  }

  /** The bookmark lines rendered three at a time. */
  function RenderBookmarks(lines: seq<string>, labels: seq<string>): Result<seq<string>> {
    Batched(lines, 3, RenderWith(labels))
  }

  /** Rendering succeeds only on whole batches, and bookmark line k comes from lines 3k to 3k+2. */
  lemma RenderedBookmarkAt(lines: seq<string>, labels: seq<string>, k: nat)
    requires RenderBookmarks(lines, labels).Ok?
    ensures 3 * |RenderBookmarks(lines, labels).value| == |lines|
    ensures k < |RenderBookmarks(lines, labels).value| ==>
      3 * k + 3 <= |lines| && RenderBookmarkBatch(lines[3 * k..3 * k + 3], labels) == Ok(RenderBookmarks(lines, labels).value[k])
  {
    assert Unpacks(3, RenderWith(labels));
    BatchedLength(lines, 3, RenderWith(labels));
    if k < |RenderBookmarks(lines, labels).value| {
      BatchedAt(lines, 3, RenderWith(labels), k);
    }
  }

  /** forwardparsing.py:105-116: write one line per batch; the first batch that fails stops the script. */
  method RenderBookmarkMetadata(bookmarkMetadata: seq<string>, labels: seq<string>) returns (md: seq<string>, failure: Option<Error>)
    ensures failure.None? <==> RenderBookmarks(bookmarkMetadata, labels).Ok?
    ensures failure.None? ==> md == RenderBookmarks(bookmarkMetadata, labels).value
    ensures failure.Some? ==> failure.value == RenderBookmarks(bookmarkMetadata, labels).error
  {
    md := [];
    var rest := bookmarkMetadata;
    while |rest| > 0
      invariant RenderBookmarks(bookmarkMetadata, labels) == After(md, Batched(rest, 3, RenderWith(labels)))
      decreases |rest|
    {
      var batch := if |rest| < 3 then rest else rest[..3];
      BatchedStep(rest, 3, RenderWith(labels));
      var line := RenderBookmarkBatch(batch, labels);
      if line.Err? {
        return md, Some(line.error);
      }
      AfterAfter(md, [line.value], Batched(rest[|batch|..], 3, RenderWith(labels)));
      md := md + [line.value];
      rest := rest[|batch|..];
    }
    return md, None;
  }

  // ---------------------------------------------------------------------------
  // The whole script

  /** The headings and keys of the Markdown text's fixed lines. */
  const LocationHeading := "# Metadata location (DO NOT EDIT)"
  const BeginBookmarkKey := "Begin bookmark line"
  const EndBookmarkKey := "End bookmark line"
  const BeginCounterKey := "Begin counter line"
  const EndCounterKey := "End counter line"
  const PageAmountLineKey := "# Page amount"
  const CountersHeading := "# Counters"
  const BookmarksHeading := "# Bookmarks"

  /** The Markdown text before the counter blocks: the record locations and the page amount. */
  function MdHeader(startBookmark: int, endBookmark: int, startCounter: int, endCounter: int, pageAmount: int): (r: seq<string>)
    ensures |r| == 9
  {
    [ LocationHeading,
      BeginBookmarkKey + ": " + DecimalString(startBookmark),
      EndBookmarkKey + ": " + DecimalString(endBookmark),
      BeginCounterKey + ": " + DecimalString(startCounter),
      EndCounterKey + ": " + DecimalString(endCounter),
      "",
      PageAmountLineKey + ": " + DecimalString(pageAmount),
      "",
      CountersHeading ]
  }

  /** The complete Markdown text, one string per line (the text ends with a newline, hence the last ""). */
  function MdDocument(header: seq<string>, counterLines: seq<string>, bookmarkLines: seq<string>): seq<string> {
    header + counterLines + ["", BookmarksHeading] + bookmarkLines + [""]
  }

  /** forwardparsing.py from the dump's lines to the Markdown text's lines, or the error that stops it. */
  function ForwardDocument(dump: seq<string>): Result<seq<string>> {
    var bookmarkRange :- FindRangeInList(dump, "Bookmark");
    var counterRange :- FindRangeInList(dump, "PageLabel");
    var pageAmount :- PageAmountOf(dump);
    var bookmarkMetadata := Without(dump[bookmarkRange.0..bookmarkRange.1], "BookmarkBegin");
    var counterMetadata := Without(dump[counterRange.0..counterRange.1], "PageLabelBegin");
    var counters :- DecodeCounters(counterMetadata);
    var labels :- ScriptLabelList(counters, pageAmount);
    var bookmarkLines :- RenderBookmarks(bookmarkMetadata, labels);
    Ok(MdDocument(MdHeader(bookmarkRange.0, bookmarkRange.1, counterRange.0, counterRange.1, pageAmount), CounterMdBlocks(counters), bookmarkLines))
  }

  /** The in-memory part of forwardparsing.py, step by step as the script runs. */
  method ForwardParse(dump: seq<string>) returns (md: seq<string>, failure: Option<Error>)
    ensures failure.None? <==> ForwardDocument(dump).Ok?
    ensures failure.None? ==> md == ForwardDocument(dump).value
    ensures failure.Some? ==> failure.value == ForwardDocument(dump).error
  {
    md := [];
    var bookmarkRange := FindRangeInList(dump, "Bookmark");
    if bookmarkRange.Err? {
      return md, Some(bookmarkRange.error);
    }
    var counterRange := FindRangeInList(dump, "PageLabel");
    if counterRange.Err? {
      return md, Some(counterRange.error);
    }
    var pageAmount := FindPageAmount(dump);
    if pageAmount.Err? {
      return md, Some(pageAmount.error);
    }
    var startBookmark, endBookmark := bookmarkRange.value.0, bookmarkRange.value.1;
    var startCounter, endCounter := counterRange.value.0, counterRange.value.1;
    var bookmarkMetadata := Without(dump[startBookmark..endBookmark], "BookmarkBegin");
    var counterMetadata := Without(dump[startCounter..endCounter], "PageLabelBegin");
    var header := MdHeader(startBookmark, endBookmark, startCounter, endCounter, pageAmount.value);
    var counters, counterLines, counterFailure := DecodeCounterMetadata(counterMetadata);
    if counterFailure.Some? {
      return md, counterFailure;
    }
    var labels, labelFailure := DeriveScriptLabels(counters, pageAmount.value);
    if labelFailure.Some? {
      return md, labelFailure;
    }
    var bookmarkLines, bookmarkFailure := RenderBookmarkMetadata(bookmarkMetadata, labels);
    if bookmarkFailure.Some? {
      return md, bookmarkFailure;
    }
    md := header + counterLines + ["", BookmarksHeading] + bookmarkLines + [""];
    return md, None;
  }
}
