/**
  The two scripts against each other: what forwardparsing.py writes for a counter or a
  bookmark, backwardparsing.py reads back to the record it came from, as long as the Markdown
  text is not edited and the labels identify their pages.
 */
module RoundTrips {
  import opened Results
  import opened Text
  import opened Records
  import opened ScriptLabels
  import opened ForwardParsing
  import opened BackwardParsing

  // ---------------------------------------------------------------------------
  // One counter

  /** A counter block gives back the counter it was written for, whatever its number. */
  lemma CounterBlockReadBack(index: int, c: ScriptCounter)
    requires IsKey(c.style)
    ensures ReadCounterBatch(CounterMdBlock(index, c)) == Ok(c)
  {
    CounterLineKeys();
    CounterLinesRead(CounterMdBlock(index, c), PageLineKey, StartLineKey, StyleLineKey, c);
  }

  lemma CounterLineKeys()
    ensures IsKey(PageLineKey) && IsKey(StartLineKey) && IsKey(StyleLineKey)
  {
  }

  /** Four lines whose last three are `key: value` lines for the 1-based page, the start and the style read as the counter. */
  lemma CounterLinesRead(block: seq<string>, pageKey: string, startKey: string, styleKey: string, c: ScriptCounter)
    requires IsKey(pageKey) && IsKey(startKey) && IsKey(styleKey) && IsKey(c.style)
    requires |block| == 4 && block[1] == pageKey + ": " + DecimalString(c.page + 1)
    requires block[2] == startKey + ": " + DecimalString(c.start) && block[3] == styleKey + ": " + c.style
    ensures ReadCounterBatch(block) == Ok(c)
  {
    FieldValueOf(pageKey, c.page + 1);
    FieldValueOf(startKey, c.start);
    SplitAfterKey(styleKey, c.style);
    SplitNoColon(c.style);
  }

  /** The three lines after "PageLabelBegin" in the dump: a 1-based page, a counting start and a style. */
  function RawCounter(page: int, start: int, style: string): (r: seq<string>)
    ensures |r| == 3
  {
    [NewIndexKey + ": " + DecimalString(page), StartKey + ": " + DecimalString(start), NumStyleKey + ": " + style]
  }

  // ---------------------------------------------------------------------------
  // One bookmark

  /** A title that survives `lstrip()`: empty, or not starting with whitespace. */
  predicate Unstripped(title: string) {
    |title| == 0 || !IsSpace(title[0])
  }

  /** A label that the backward script cuts out intact: it holds no ")". */
  predicate Unbracketed(pageLabel: string) {
    forall k :: 0 <= k < |pageLabel| ==> pageLabel[k] != ')'
  }

  /** Page `page` (1-based) is the last page carrying its label, so the label leads back to it. */
  predicate LastWithLabel(labels: seq<string>, page: int) {
    1 <= page <= |labels| && forall j :: page - 1 < j < |labels| ==> labels[j] != labels[page - 1]
  }

  lemma LStripOneSpace(title: string)
    requires Unstripped(title)
    ensures LStrip(" " + title) == title
  {
    var s := " " + title;
    if |title| == 0 {
      assert LeadingSpaces(s) == 1;
    } else {
      assert s[1] == title[0];
      assert LeadingSpaces(s) == 1;
      assert s[1..] == title;
    }
  }

  /** The text after `- (`: the label up to the first ")", then the title after one space. */
  lemma LabelThenTitle(pageLabel: string, title: string)
    requires Unbracketed(pageLabel) && Unstripped(title)
    ensures var rest := pageLabel + ") " + title;
      && IndexOf(rest, ")") == Some(|pageLabel|)
      && rest[..|pageLabel|] == pageLabel
      && LStrip(rest[|pageLabel| + 1..]) == title
  {
    var rest := pageLabel + ") " + title;
    var n := |pageLabel|;
    assert OccursAt(rest, ")", n) by {
      assert rest[n..n + 1] == ")";
    }
    forall j | 0 <= j < n ensures !OccursAt(rest, ")", j) {
      assert rest[j..j + 1][0] == rest[j] == pageLabel[j];
    }
    IndexOfIs(rest, ")", n);
    assert rest[..n] == pageLabel;
    assert rest[n + 1..] == " " + title;
    LStripOneSpace(title);
  }

  /**
    A bookmark line written for a level of at least 1, the label of its page and a title gives
    back that title, level and page, when the label holds no ")", the title does not start with
    whitespace, and no later page has the same label.
   */
  lemma BookmarkLineReadBack(level: int, page: int, title: string, labels: seq<string>)
    requires level >= 1 && LastWithLabel(labels, page)
    requires Unbracketed(labels[page - 1]) && Unstripped(title)
    ensures ParseBookmarkLine(BookmarkLine(level, labels[page - 1], title), LabelIndex(labels)) == Ok(Bookmark(title, level, page))
  {
    var index := LabelIndex(labels);
    LabelIndexIsLast(labels, page - 1);
    BookmarkLineParses(level, labels[page - 1], title, index, page);
  }

  /** A bookmark line for a known label parses to its title, its level and the label's page. */
  lemma BookmarkLineParses(level: int, pageLabel: string, title: string, index: map<string, nat>, page: int)
    requires level >= 1 && pageLabel in index && index[pageLabel] + 1 == page
    requires Unbracketed(pageLabel) && Unstripped(title)
    ensures ParseBookmarkLine(BookmarkLine(level, pageLabel, title), index) == Ok(Bookmark(title, level, page))
  {
    var rest := pageLabel + ") " + title;
    var tail := "- (" + rest;
    var line := BookmarkLine(level, pageLabel, title);
    assert line == Indent(level) + tail;
    IndentGivesLevel(level, tail);
    assert |"- ("| == 3;
    assert Drop(tail, 3) == rest by {
      assert tail[3..] == rest;
    }
    LabelThenTitle(pageLabel, title);
    LabelledTitleIs(rest, index, level, |pageLabel|, pageLabel, title, page);
    ParseBookmarkLineIs(line, index, level, rest);
  }

  /** A line's parse is the parse of its text after `- (` at the level of its indentation. */
  lemma ParseBookmarkLineIs(line: string, index: map<string, nat>, level: int, rest: string)
    requires LeadingSpaces(line) / 4 + 1 == level && Drop(LStrip(line), 3) == rest
    ensures ParseBookmarkLine(line, index) == LabelledTitle(rest, index, level)
  {
  }

  /** The text after `- (` whose first ")" closes a known label gives that label's page and the stripped title. */
  lemma LabelledTitleIs(rest: string, index: map<string, nat>, level: int, n: nat, pageLabel: string, title: string, page: int)
    requires IndexOf(rest, ")") == Some(n)
    requires rest[..n] == pageLabel && pageLabel in index && index[pageLabel] + 1 == page
    requires LStrip(rest[n + 1..]) == title
    ensures LabelledTitle(rest, index, level) == Ok(Bookmark(title, level, page))
  {
  }

  /** The three lines of a dump's bookmark record after "BookmarkBegin". */
  function RawBookmark(title: string, level: int, page: int): (r: seq<string>)
    ensures |r| == 3
  {
    [TitleKey + ": " + title, LevelKey + ": " + DecimalString(level), PageNumberKey + ": " + DecimalString(page)]
  }

  // ---------------------------------------------------------------------------
  // The whole Markdown text

  /** The header's location lines and page amount line read back as the numbers written there. */
  lemma HeaderReadBack(startBookmark: int, endBookmark: int, startCounter: int, endCounter: int, pageAmount: int)
    ensures ReadHeader(MdHeader(startBookmark, endBookmark, startCounter, endCounter, pageAmount)) == Ok(pageAmount)
  {
    var header := MdHeader(startBookmark, endBookmark, startCounter, endCounter, pageAmount);
    LocationsReadBack(startBookmark, endBookmark, startCounter, endCounter, pageAmount);
    assert PySlice(header, 1, 5) == header[1..5];
    HeaderKeys();
    FieldValueOf(PageAmountLineKey, pageAmount);
  }

  /** Reading the header looks at the first seven lines only. */
  lemma ReadHeaderOfPrefix(md: seq<string>, header: seq<string>)
    requires |header| >= 7 && |md| >= |header| && md[..|header|] == header
    ensures ReadHeader(md) == ReadHeader(header)
  {
    assert md[6] == header[6];
    assert PySlice(md, 1, 5) == PySlice(header, 1, 5) by {
      assert md[1..5] == header[1..5];
    }
  }

  /** The keys of the header's lines hold no colon. */
  lemma HeaderKeys()
    ensures IsKey(BeginBookmarkKey) && IsKey(EndBookmarkKey) && IsKey(BeginCounterKey) && IsKey(EndCounterKey)
    ensures IsKey(PageAmountLineKey)
  {
  }

  /** Four `key: n` lines read back as their four numbers. */
  lemma FourFieldsReadBack(k1: string, k2: string, k3: string, k4: string, a: int, b: int, c: int, d: int)
    requires IsKey(k1) && IsKey(k2) && IsKey(k3) && IsKey(k4)
    ensures FieldValues([k1 + ": " + DecimalString(a), k2 + ": " + DecimalString(b), k3 + ": " + DecimalString(c), k4 + ": " + DecimalString(d)]) == Ok([a, b, c, d])
  {
    var lines := [k1 + ": " + DecimalString(a), k2 + ": " + DecimalString(b), k3 + ": " + DecimalString(c), k4 + ": " + DecimalString(d)];
    var values := [a, b, c, d];
    forall k | 0 <= k < 4 ensures FieldValue(lines[k]) == Ok(values[k]) {
      if k == 0 {
        FieldValueOf(k1, a);
      } else if k == 1 {
        FieldValueOf(k2, b);
      } else if k == 2 {
        FieldValueOf(k3, c);
      } else {
        FieldValueOf(k4, d);
      }
    }
    MapEachOk(lines, FieldValue, values);
  }

  /** The four location lines read back as the four locations. */
  lemma LocationsReadBack(startBookmark: int, endBookmark: int, startCounter: int, endCounter: int, pageAmount: int)
    ensures FieldValues(MdHeader(startBookmark, endBookmark, startCounter, endCounter, pageAmount)[1..5]) == Ok([startBookmark, endBookmark, startCounter, endCounter])
  {
    HeaderKeys();
    FourFieldsReadBack(BeginBookmarkKey, EndBookmarkKey, BeginCounterKey, EndCounterKey, startBookmark, endBookmark, startCounter, endCounter);
    FourAfterFirst(MdHeader(startBookmark, endBookmark, startCounter, endCounter, pageAmount));
  }

  /** Lines 1 to 4 of a header-sized list, one by one. */
  lemma FourAfterFirst(lines: seq<string>)
    requires |lines| == 9
    ensures lines[1..5] == [lines[1], lines[2], lines[3], lines[4]]
  {
  }

  /** A `key: value` line is not a line that differs from the key at some position of the key. */
  lemma FieldLineDiffers(key: string, value: string, line: string, i: nat)
    requires i < |key| && i < |line| && key[i] != line[i]
    ensures key + ": " + value != line
  {
    assert (key + ": " + value)[i] == key[i];
  }

  /** The header ends with "# Counters", which none of its lines before is, and has no "# Bookmarks". */
  lemma HeaderHeadings(sb: int, eb: int, sc: int, ec: int, pa: int)
    ensures var header := MdHeader(sb, eb, sc, ec, pa);
      header[8] == CountersHeading && CountersHeading !in header[..8] && BookmarksHeading !in header
  {
    HeadingNotInHeader(sb, eb, sc, ec, pa, CountersHeading);
    BookmarksHeadingNotInHeader(sb, eb, sc, ec, pa);
  }

  /** A "# " heading other than the page amount line is none of the header's first eight lines. */
  lemma HeadingNotInHeader(sb: int, eb: int, sc: int, ec: int, pa: int, h: string)
    requires |h| > 2 && h[0] == '#' && h[2] != 'P' && |h| != |LocationHeading|
    ensures h !in MdHeader(sb, eb, sc, ec, pa)[..8]
  {
    var header := MdHeader(sb, eb, sc, ec, pa);
    assert header[0] != h by {
      assert |header[0]| != |h|;
    }
    assert header[1] != h by {
      FieldLineDiffers(BeginBookmarkKey, DecimalString(sb), h, 0);
    }
    assert header[2] != h by {
      FieldLineDiffers(EndBookmarkKey, DecimalString(eb), h, 0);
    }
    assert header[3] != h by {
      FieldLineDiffers(BeginCounterKey, DecimalString(sc), h, 0);
    }
    assert header[4] != h by {
      FieldLineDiffers(EndCounterKey, DecimalString(ec), h, 0);
    }
    assert header[6] != h by {
      FieldLineDiffers(PageAmountLineKey, DecimalString(pa), h, 2);
    }
    assert header[5] == header[7] == "";
  }

  lemma BookmarksHeadingNotInHeader(sb: int, eb: int, sc: int, ec: int, pa: int)
    ensures BookmarksHeading !in MdHeader(sb, eb, sc, ec, pa)
  {
    var header := MdHeader(sb, eb, sc, ec, pa);
    HeadingNotInHeader(sb, eb, sc, ec, pa, BookmarksHeading);
    assert header[8] != BookmarksHeading by {
      assert CountersHeading[2] != BookmarksHeading[2];
    }
    assert header == header[..8] + [header[8]];
  }

  /** A "# " heading is no line of the counter blocks, which start with "Counter" or with spaces. */
  lemma HeadingNotInBlocks(cs: seq<ScriptCounter>, h: string)
    requires |h| > 0 && h[0] == '#'
    ensures h !in CounterMdBlocks(cs)
  {
    var xss := CounterMdBlockList(cs);
    forall k | 0 <= k < |xss| ensures h !in xss[k] {
      var c := cs[k];
      assert xss[k] == CounterMdBlock(k, c);
      assert xss[k][0] != h by {
        assert ("Counter " + DecimalString(k) + ":")[0] == 'C';
      }
      assert xss[k][1] != h by {
        FieldLineDiffers(PageLineKey, DecimalString(c.page + 1), h, 0);
      }
      assert xss[k][2] != h by {
        FieldLineDiffers(StartLineKey, DecimalString(c.start), h, 0);
      }
      assert xss[k][3] != h by {
        FieldLineDiffers(StyleLineKey, c.style, h, 0);
      }
    }
    FlattenExcludes(xss, h);
  }

  /** The counter section has four lines per counter. */
  lemma CounterMdBlocksLength(cs: seq<ScriptCounter>)
    ensures |CounterMdBlocks(cs)| == 4 * |cs|
  {
    if |cs| > 0 {
      CounterMdBlocksLayout(cs, 0);
    } else {
      assert CounterMdBlockList(cs) == [];
    }
  }

  /** The text written begins with its header. */
  lemma MdDocumentStarts(header: seq<string>, counterLines: seq<string>, bookmarkLines: seq<string>)
    ensures |MdDocument(header, counterLines, bookmarkLines)| > |header|
    ensures MdDocument(header, counterLines, bookmarkLines)[..|header|] == header
  {
  }

  /**
    Whatever the header and the counter lines, when the header ends with the only "# Counters"
    before the bookmarks and neither holds "# Bookmarks", the sections read are exactly the
    counter lines and the bookmark lines.
   */
  lemma SectionsAt(header: seq<string>, counterLines: seq<string>, bookmarkLines: seq<string>)
    requires |header| >= 1 && header[|header| - 1] == CountersHeading && CountersHeading !in header[..|header| - 1]
    requires BookmarksHeading !in header && BookmarksHeading !in counterLines
    ensures Sections(MdDocument(header, counterLines, bookmarkLines)) == Ok((counterLines, bookmarkLines))
  {
    var md := MdDocument(header, counterLines, bookmarkLines);
    var c, b := |header| - 1, |header| + |counterLines| + 1;
    CountersHeadingFound(header, counterLines, bookmarkLines);
    BookmarksHeadingFound(header, counterLines, bookmarkLines);
    CounterLinesSlice(header, counterLines, bookmarkLines, c, b);
    BookmarkLinesSlice(header, counterLines, bookmarkLines, b);
    SectionsOf(md, c, b, counterLines, bookmarkLines);
  }

  lemma CountersHeadingFound(header: seq<string>, counterLines: seq<string>, bookmarkLines: seq<string>)
    requires |header| >= 1 && header[|header| - 1] == CountersHeading && CountersHeading !in header[..|header| - 1]
    ensures LineIndex(MdDocument(header, counterLines, bookmarkLines), CountersHeading) == Some(|header| - 1)
  {
    var n := |header|;
    var rest := counterLines + ["", BookmarksHeading] + bookmarkLines + [""];
    assert header == header[..n - 1] + [CountersHeading];
    assert MdDocument(header, counterLines, bookmarkLines) == header[..n - 1] + [CountersHeading] + rest;
    LineIndexAfter(header[..n - 1], CountersHeading, rest);
  }

  lemma BookmarksHeadingFound(header: seq<string>, counterLines: seq<string>, bookmarkLines: seq<string>)
    requires BookmarksHeading !in header && BookmarksHeading !in counterLines
    ensures LineIndex(MdDocument(header, counterLines, bookmarkLines), BookmarksHeading) == Some(|header| + |counterLines| + 1)
  {
    var before := header + counterLines + [""];
    assert BookmarksHeading !in before;
    assert MdDocument(header, counterLines, bookmarkLines) == before + [BookmarksHeading] + (bookmarkLines + [""]);
    LineIndexAfter(before, BookmarksHeading, bookmarkLines + [""]);
  }

  lemma CounterLinesSlice(header: seq<string>, counterLines: seq<string>, bookmarkLines: seq<string>, c: int, b: int)
    requires c + 1 == |header| && b - 1 == |header| + |counterLines|
    ensures PySlice(MdDocument(header, counterLines, bookmarkLines), c + 1, b - 1) == counterLines
  {
    var md := MdDocument(header, counterLines, bookmarkLines);
    assert md[|header|..|header| + |counterLines|] == counterLines;
  }

  lemma BookmarkLinesSlice(header: seq<string>, counterLines: seq<string>, bookmarkLines: seq<string>, b: int)
    requires b == |header| + |counterLines| + 1
    ensures PySlice(MdDocument(header, counterLines, bookmarkLines), b + 1, -1) == bookmarkLines
  {
    var md := MdDocument(header, counterLines, bookmarkLines);
    var a := b + 1;
    assert SliceBound(-1, |md|) == |md| - 1;
    assert md[a..|md| - 1] == bookmarkLines;
  }

  /** The sections are the slices around the positions where the two headings are found. */
  lemma SectionsOf(md: seq<string>, counterHeader: nat, bookmarkHeader: nat, counterLines: seq<string>, bookmarkLines: seq<string>)
    requires LineIndex(md, CountersHeading) == Some(counterHeader)
    requires LineIndex(md, BookmarksHeading) == Some(bookmarkHeader)
    requires PySlice(md, counterHeader + 1, bookmarkHeader - 1) == counterLines
    requires PySlice(md, bookmarkHeader + 1, -1) == bookmarkLines
    ensures Sections(md) == Ok((counterLines, bookmarkLines))
  {
  }

  /** The counter blocks read back as the counters they were written for. */
  lemma CountersReadBack(cs: seq<ScriptCounter>)
    requires forall i :: 0 <= i < |cs| ==> IsKey(cs[i].style)
    ensures ReadCounters(CounterMdBlocks(cs)) == Ok(cs)
  {
    var xss := CounterMdBlockList(cs);
    forall k | 0 <= k < |xss| ensures |xss[k]| == 4 && ReadCounterBatch(xss[k]) == Ok(cs[k]) {
      CounterBlockReadBack(k, cs[k]);
    }
    BatchedFlatten(xss, 4, ReadCounterBatch, cs);
  }

  /** What the backward script needs of a bookmark to give it back unchanged. */
  predicate Readable(b: Bookmark, labels: seq<string>) {
    b.level >= 1 && LastWithLabel(labels, b.pageNumber) && Unbracketed(labels[b.pageNumber - 1]) && Unstripped(b.title)
  }

  predicate AllReadable(bms: seq<Bookmark>, labels: seq<string>) {
    forall k :: 0 <= k < |bms| ==> Readable(bms[k], labels)
  }

  /** The bookmark section the forward script writes: one line per bookmark, with its page's label. */
  function WrittenBookmarkLines(bms: seq<Bookmark>, labels: seq<string>): (r: seq<string>)
    requires AllReadable(bms, labels)
    ensures |r| == |bms|
  {
    seq(|bms|, k requires 0 <= k < |bms| => BookmarkLine(bms[k].level, labels[bms[k].pageNumber - 1], bms[k].title))
  }

  /** The written bookmark lines read back as the bookmarks. */
  lemma BookmarksReadBack(bms: seq<Bookmark>, labels: seq<string>)
    requires AllReadable(bms, labels)
    ensures ParseBookmarkLines(WrittenBookmarkLines(bms, labels), LabelIndex(labels)) == Ok(bms)
  {
    var lines := WrittenBookmarkLines(bms, labels);
    var index := LabelIndex(labels);
    var parse := line => ParseBookmarkLine(line, index);
    forall k | 0 <= k < |lines| ensures parse(lines[k]) == Ok(bms[k]) {
      WrittenLineReadBack(bms, labels, k);
    }
    MapEachOk(lines, parse, bms);
  }

  /** Bookmark line k of the text written for `bms` reads back as bookmark k. */
  lemma WrittenLineReadBack(bms: seq<Bookmark>, labels: seq<string>, k: nat)
    requires AllReadable(bms, labels) && k < |bms|
    ensures ParseBookmarkLine(WrittenBookmarkLines(bms, labels)[k], LabelIndex(labels)) == Ok(bms[k])
  {
    var b := bms[k];
    assert Readable(b, labels);
    assert WrittenBookmarkLines(bms, labels)[k] == BookmarkLine(b.level, labels[b.pageNumber - 1], b.title);
    BookmarkLineReadBack(b.level, b.pageNumber, b.title, labels);
  }

  /**
    backwardparsing.py run on the unedited text written by forwardparsing.py for counters `cs`
    and bookmarks `bms` gives back the raw records of exactly those bookmarks and counters.
   */
  lemma DocumentReadBack(sb: int, eb: int, sc: int, ec: int, pa: int, cs: seq<ScriptCounter>, bms: seq<Bookmark>, labels: seq<string>)
    requires forall i :: 0 <= i < |cs| ==> IsKey(cs[i].style)
    requires ScriptLabelList(cs, pa) == Ok(labels)
    requires AllReadable(bms, labels)
    ensures BackwardDocument(MdDocument(MdHeader(sb, eb, sc, ec, pa), CounterMdBlocks(cs), WrittenBookmarkLines(bms, labels)))
      == Ok(InfoRecords(BookmarkRecords(bms), PageLabelRecords(cs)))
  {
    var lines := WrittenBookmarkLines(bms, labels);
    var header := MdHeader(sb, eb, sc, ec, pa);
    var blocks := CounterMdBlocks(cs);
    var md := MdDocument(header, blocks, lines);
    HeaderReadBack(sb, eb, sc, ec, pa);
    MdDocumentStarts(header, blocks, lines);
    ReadHeaderOfPrefix(md, header);
    HeaderHeadings(sb, eb, sc, ec, pa);
    HeadingNotInBlocks(cs, BookmarksHeading);
    SectionsAt(header, blocks, lines);
    CountersReadBack(cs);
    BookmarksReadBack(bms, labels);
  }

  // ---------------------------------------------------------------------------
  // Both scripts in turn

  /** No line of a counter's raw record is the "PageLabelBegin" line. */
  lemma RawCounterHeadless(c: ScriptCounter)
    ensures "PageLabelBegin" !in RawCounter(c.page + 1, c.start, c.style)
  {
    var begin := "PageLabelBegin";
    FieldLineDiffers(NewIndexKey, DecimalString(c.page + 1), begin, 9);
    FieldLineDiffers(StartKey, DecimalString(c.start), begin, 9);
    FieldLineDiffers(NumStyleKey, c.style, begin, 9);
  }

  /** No line of a bookmark's raw record is the "BookmarkBegin" line. */
  lemma RawBookmarkHeadless(b: Bookmark)
    ensures "BookmarkBegin" !in RawBookmark(b.title, b.level, b.pageNumber)
  {
    var begin := "BookmarkBegin";
    FieldLineDiffers(TitleKey, b.title, begin, 8);
    FieldLineDiffers(LevelKey, DecimalString(b.level), begin, 8);
    FieldLineDiffers(PageNumberKey, DecimalString(b.pageNumber), begin, 8);
  }

  /**
    The page-label records the backward script writes, filtered and decoded by the forward
    script, give the counters back.
   */
  lemma CounterRecordsDecode(cs: seq<ScriptCounter>)
    requires forall i :: 0 <= i < |cs| ==> IsKey(cs[i].style)
    ensures DecodeCounters(Without(PageLabelRecords(cs), "PageLabelBegin")) == Ok(cs)
  {
    var records := PageLabelRecordList(cs);
    var bodies := seq(|cs|, k requires 0 <= k < |cs| => RawCounter(cs[k].page + 1, cs[k].start, cs[k].style));
    forall k | 0 <= k < |cs|
      ensures records[k] == ["PageLabelBegin"] + bodies[k] && "PageLabelBegin" !in bodies[k]
      ensures |bodies[k]| == 3 && DecodeCounterBatch(bodies[k]) == Ok(cs[k])
    {
      var c := cs[k];
      assert records[k] == ["PageLabelBegin"] + bodies[k] by {
        assert records[k] == PageLabelRecord(c);
      }
      RawCounterHeadless(c);
      DecodeRawCounter(c.page + 1, c.start, c.style);
      assert ScriptCounter(c.page + 1 - 1, c.start, c.style) == c;
    }
    WithoutHeads(records, "PageLabelBegin", bodies);
    BatchedFlatten(bodies, 3, DecodeCounterBatch, cs);
  }

  /**
    The bookmark records the backward script writes, filtered and rendered by the forward
    script, give the bookmark lines it writes for them.
   */
  lemma BookmarkRecordsRender(bms: seq<Bookmark>, labels: seq<string>)
    requires AllReadable(bms, labels)
    ensures RenderBookmarks(Without(BookmarkRecords(bms), "BookmarkBegin"), labels) == Ok(WrittenBookmarkLines(bms, labels))
  {
    var records := BookmarkRecordList(bms);
    var bodies := seq(|bms|, k requires 0 <= k < |bms| => RawBookmark(bms[k].title, bms[k].level, bms[k].pageNumber));
    var lines := WrittenBookmarkLines(bms, labels);
    forall k | 0 <= k < |bms|
      ensures records[k] == ["BookmarkBegin"] + bodies[k] && "BookmarkBegin" !in bodies[k]
      ensures |bodies[k]| == 3 && RenderWith(labels)(bodies[k]) == Ok(lines[k])
    {
      var b := bms[k];
      assert Readable(b, labels);
      assert records[k] == ["BookmarkBegin"] + bodies[k] by {
        assert records[k] == BookmarkRecord(b);
      }
      RawBookmarkHeadless(b);
      RenderRawBookmark(b.title, b.level, b.pageNumber, labels);
    }
    WithoutHeads(records, "BookmarkBegin", bodies);
    BatchedFlatten(bodies, 3, RenderWith(labels), lines);
  }

  /**
    A dump whose bookmark lines are the records of `bms` and whose page-label lines are the
    records of `cs`: the forward script writes the counter blocks and the labelled bookmark
    lines, and the backward script, reading that text, writes the dump's records again.
   */
  lemma ScriptsRoundTrip(dump: seq<string>, sb: nat, eb: nat, sc: nat, ec: nat, pa: int,
                         cs: seq<ScriptCounter>, bms: seq<Bookmark>, labels: seq<string>)
    requires FindRangeInList(dump, "Bookmark") == Ok((sb, eb)) && dump[sb..eb] == BookmarkRecords(bms)
    requires FindRangeInList(dump, "PageLabel") == Ok((sc, ec)) && dump[sc..ec] == PageLabelRecords(cs)
    requires PageAmountOf(dump) == Ok(pa)
    requires forall i :: 0 <= i < |cs| ==> IsKey(cs[i].style)
    requires ScriptLabelList(cs, pa) == Ok(labels)
    requires AllReadable(bms, labels)
    ensures ForwardDocument(dump) == Ok(MdDocument(MdHeader(sb, eb, sc, ec, pa), CounterMdBlocks(cs), WrittenBookmarkLines(bms, labels)))
    ensures BackwardDocument(ForwardDocument(dump).value) == Ok(InfoRecords(dump[sb..eb], dump[sc..ec]))
  {
    CounterRecordsDecode(cs);
    BookmarkRecordsRender(bms, labels);
    DocumentReadBack(sb, eb, sc, ec, pa, cs, bms, labels);
  }
}
