/**
  backwardparsing.py: from the lines of the edited Markdown text back to the dump's raw
  `PageLabel*` and `Bookmark*` records. The counter section is read four lines per counter,
  the label list is derived as the forward script does, every label is mapped to its page,
  and each `- (label) title` line becomes a bookmark record.
 */
module BackwardParsing {
  import opened Results
  import opened Text
  import opened Records
  import opened ScriptLabels
  import opened ForwardParsing

  // ---------------------------------------------------------------------------
  // Python list operations

  /** Python's `lines.index(x)`: the first position of x, None where it raises. */
  function LineIndex(lines: seq<string>, x: string): (r: Option<nat>)
    ensures r.Some? ==> r.value < |lines| && lines[r.value] == x
    ensures r.Some? ==> forall j :: 0 <= j < r.value ==> lines[j] != x
    ensures r.None? <==> x !in lines
  {
    if |lines| == 0 then None
    else if lines[0] == x then Some(0)
    else
      assert forall j :: 1 <= j < |lines| ==> lines[1..][j - 1] == lines[j];
      match LineIndex(lines[1..], x)
      case None => None
      case Some(k) => Some(k + 1)
  }

  /** The first position of x is where it occurs with no earlier occurrence. */
  lemma LineIndexIs(lines: seq<string>, x: string, i: nat)
    requires i < |lines| && lines[i] == x
    requires forall j :: 0 <= j < i ==> lines[j] != x
    ensures LineIndex(lines, x) == Some(i)
  {
  }

  /** A line that occurs nowhere before a position is found there. */
  lemma LineIndexAfter(before: seq<string>, x: string, after: seq<string>)
    requires x !in before
    ensures LineIndex(before + [x] + after, x) == Some(|before|)
  {
    var lines := before + [x] + after;
    assert forall j :: 0 <= j < |before| ==> lines[j] == before[j];
    LineIndexIs(lines, x, |before|);
  }

  /** A slice bound as Python reads it: negative counts from the end, then clamped into [0, n]. */
  function SliceBound(i: int, n: nat): (r: nat)
    ensures r <= n
  {
    var j := if i < 0 then i + n else i;
    if j < 0 then 0 else if j > n then n else j
  }

  /** Python's `xs[a:b]`. */
  function PySlice<T>(xs: seq<T>, a: int, b: int): (r: seq<T>)
    ensures 0 <= a <= b <= |xs| ==> r == xs[a..b]
    ensures 0 <= a && b < 0 && a <= |xs| + b ==> r == xs[a..|xs| + b]
    ensures 0 <= a <= |xs| <= b ==> r == xs[a..]
    ensures 0 <= b <= a ==> r == []
  {
    var lo, hi := SliceBound(a, |xs|), SliceBound(b, |xs|);
    if lo < hi then xs[lo..hi] else []
  }

  // ---------------------------------------------------------------------------
  // The fixed lines at the top (backwardparsing.py:13-19)

  /** `[int(line.split(": ")[1]) for line in lines]`: the first line that does not read fails. */
  function FieldValues(lines: seq<string>): Result<seq<int>> {
    MapEach(lines, FieldValue)
  }

  /**
    The four record locations of lines 1 to 4, unpacked into four names (which fails when the
    text has fewer lines), and the page amount of line 6.
   */
  function ReadHeader(md: seq<string>): (r: Result<int>)
    ensures r.Ok? ==> |md| >= 7 && FieldValue(md[6]) == Ok(r.value)
  {
    var locations :- FieldValues(PySlice(md, 1, 5));
    if |locations| != 4 then Err(ShortGroup)
    else
      var pageLine :- if |md| > 6 then Ok(md[6]) else Err(IndexOutOfRange(6));
      FieldValue(pageLine)
  }

  // ---------------------------------------------------------------------------
  // The counters (backwardparsing.py:36-48)

  /**
    One batch of four counter-section lines unpacked into header, page, start and style. The
    header is ignored, the page is stored 0-based, and the style is the second ": "-part.
   */
  function ReadCounterBatch(batch: seq<string>): Result<ScriptCounter> {
    if |batch| != 4 then Err(ShortGroup)
    else
      var page :- FieldValue(batch[1]);
      var start :- FieldValue(batch[2]);
      var parts := SplitAll(batch[3], ": ");
      if |parts| < 2 then Err(IndexOutOfRange(1))
      else Ok(ScriptCounter(page - 1, start, parts[1]))
  }

  /** The counter section read four lines at a time. */
  function ReadCounters(lines: seq<string>): Result<seq<ScriptCounter>> {
    Batched(lines, 4, ReadCounterBatch)
  }

  /** Reading succeeds only on whole batches, and counter k comes from lines 4k to 4k+3. */
  lemma ReadCounterAt(lines: seq<string>, k: nat)
    requires ReadCounters(lines).Ok?
    ensures 4 * |ReadCounters(lines).value| == |lines|
    ensures k < |ReadCounters(lines).value| ==>
      4 * k + 4 <= |lines| && ReadCounterBatch(lines[4 * k..4 * k + 4]) == Ok(ReadCounters(lines).value[k])
  {
    assert Unpacks(4, ReadCounterBatch);
    BatchedLength(lines, 4, ReadCounterBatch);
    if k < |ReadCounters(lines).value| {
      BatchedAt(lines, 4, ReadCounterBatch, k);
    }
  }

  /** The raw page-label record of a counter; its page is written 1-based again. */
  function PageLabelRecord(c: ScriptCounter): (r: seq<string>)
    ensures |r| == 4
  {
    [ "PageLabelBegin",
      NewIndexKey + ": " + DecimalString(c.page + 1),
      StartKey + ": " + DecimalString(c.start),
      NumStyleKey + ": " + c.style ]
  }

  function PageLabelRecordList(cs: seq<ScriptCounter>): (r: seq<seq<string>>)
    ensures |r| == |cs|
  {
    seq(|cs|, k requires 0 <= k < |cs| => PageLabelRecord(cs[k]))
  }

  /** `pdf_counter_metadata`: the records of the counters one after another. */
  function PageLabelRecords(cs: seq<ScriptCounter>): seq<string> {
    Flatten(PageLabelRecordList(cs))
  }

  /** Every counter gives exactly four record lines, counter i's at 4i. */
  lemma PageLabelRecordsLayout(cs: seq<ScriptCounter>, i: nat)
    requires i < |cs|
    ensures |PageLabelRecords(cs)| == 4 * |cs|
    ensures PageLabelRecords(cs)[4 * i..4 * i + 4] == PageLabelRecord(cs[i])
  {
    var xss := PageLabelRecordList(cs);
    assert forall k :: 0 <= k < |xss| ==> |xss[k]| == 4;
    assert xss[i] == PageLabelRecord(cs[i]);
    FlattenLayout(xss, 4, i);
  }

  lemma PageLabelRecordsSnoc(cs: seq<ScriptCounter>, c: ScriptCounter)
    ensures PageLabelRecords(cs + [c]) == PageLabelRecords(cs) + PageLabelRecord(c)
  {
    var xss := PageLabelRecordList(cs + [c]);
    assert xss[..|cs|] == PageLabelRecordList(cs);
    assert xss[|cs|] == PageLabelRecord(c);
  }

  /**
    backwardparsing.py:30-48: read the counter section batch by batch, collecting the counters
    and extending the raw records; the first batch that fails stops the script.
   */
  method ReadCounterSection(counterMetadatas: seq<string>) returns (counters: seq<ScriptCounter>, records: seq<string>, failure: Option<Error>)
    ensures failure.None? <==> ReadCounters(counterMetadatas).Ok?
    ensures failure.None? ==> counters == ReadCounters(counterMetadatas).value && records == PageLabelRecords(counters)
    ensures failure.Some? ==> failure.value == ReadCounters(counterMetadatas).error
  {
    counters, records := [], [];
    var rest := counterMetadatas;
    while |rest| > 0
      invariant ReadCounters(counterMetadatas) == After(counters, Batched(rest, 4, ReadCounterBatch))
      invariant records == PageLabelRecords(counters)
      decreases |rest|
    {
      var batch := if |rest| < 4 then rest else rest[..4];
      BatchedStep(rest, 4, ReadCounterBatch);
      var c := ReadCounterBatch(batch);
      if c.Err? {
        return counters, records, Some(c.error);
      }
      PageLabelRecordsSnoc(counters, c.value);
      records := records + PageLabelRecord(c.value);
      AfterAfter(counters, [c.value], Batched(rest[|batch|..], 4, ReadCounterBatch));
      counters := counters + [c.value];
      rest := rest[|batch|..];
    }
    return counters, records, None;
  }

  // ---------------------------------------------------------------------------
  // From labels to pages (backwardparsing.py:71-73)

  /**
    `{page_label: page for page, page_label in enumerate(labels)}`: every label maps to its
    last 0-based position, since later entries overwrite earlier ones.
   */
  function LabelIndex(labels: seq<string>): (m: map<string, nat>)
    ensures forall l {:trigger l in m} :: l in m <==> l in labels
    ensures forall l {:trigger m[l]} :: l in m ==> m[l] < |labels| && labels[m[l]] == l
    ensures forall l {:trigger m[l]} :: l in m ==> forall j :: m[l] < j < |labels| ==> labels[j] != l
  {
    if |labels| == 0 then map[]
    else
      var init := labels[..|labels| - 1];
      assert forall j :: 0 <= j < |init| ==> init[j] == labels[j];
      assert forall l :: l in labels <==> l in init || l == labels[|labels| - 1];
      LabelIndex(init)[labels[|labels| - 1] := |labels| - 1]
  }

  /** A label's page is its last position in the list. */
  lemma LabelIndexIsLast(labels: seq<string>, q: nat)
    requires q < |labels|
    requires forall j :: q < j < |labels| ==> labels[j] != labels[q]
    ensures labels[q] in LabelIndex(labels) && LabelIndex(labels)[labels[q]] == q
  {
    assert labels[q] in labels;
  }

  // ---------------------------------------------------------------------------
  // The bookmarks (backwardparsing.py:75-92)

  /**
    One bookmark line: the level is the leading whitespace divided by four, plus one; after
    the whitespace and the three characters "- (", the label runs up to the first ")", and
    the title is the rest with its leading whitespace removed. The page is the label's
    position plus one; a line without ")" or with an unknown label fails.
   */
  function ParseBookmarkLine(line: string, index: map<string, nat>): Result<Bookmark> {
    LabelledTitle(Drop(LStrip(line), 3), index, LeadingSpaces(line) / 4 + 1)
  }

  /** Position k holds the first ")" of `rest`. */
  predicate FirstClose(rest: string, k: int) {
    0 <= k < |rest| && rest[k] == ')' && forall j :: 0 <= j < k ==> rest[j] != ')'
  }

  /** `")"` occurs at a position exactly when that character is `)`. */
  lemma CloseOccurs(rest: string)
    ensures forall k :: 0 <= k < |rest| ==> (OccursAt(rest, ")", k) <==> rest[k] == ')')
  {
    forall k | 0 <= k < |rest| ensures OccursAt(rest, ")", k) <==> rest[k] == ')' {
      assert rest[k..k + 1] == [rest[k]];
    }
  }

  /** The first ")" is at one position only. */
  lemma FirstCloseUnique(rest: string, k: int)
    requires FirstClose(rest, k)
    ensures forall k' :: FirstClose(rest, k') ==> k' == k
  {
  }

  /** Where `str.find(")")` finds nothing, no character is ")"; otherwise it finds the first one. */
  lemma FindClose(rest: string)
    ensures IndexOf(rest, ")").None? ==> forall k :: 0 <= k < |rest| ==> rest[k] != ')'
    ensures IndexOf(rest, ")").Some? ==> FirstClose(rest, IndexOf(rest, ")").value)
  {
    CloseOccurs(rest);
  }

  /**
    The text of a bookmark line after `- (`: the label runs up to the first ")", and the title
    is what follows with its leading whitespace removed. The page is the label's position in
    the label list plus one. Without ")" the line fails, and so it does when the label is not
    in the list.
   */
  function LabelledTitle(rest: string, index: map<string, nat>, level: int): (r: Result<Bookmark>)
    ensures (forall k :: 0 <= k < |rest| ==> rest[k] != ')') ==> r == Err(MissingMarker(")"))
    ensures forall k :: FirstClose(rest, k) ==>
      r == if rest[..k] in index then Ok(Bookmark(LStrip(rest[k + 1..]), level, index[rest[..k]] + 1))
           else Err(UnknownLabel(rest[..k]))
    ensures r.Ok? ==> r.value.level == level && r.value.pageNumber >= 1
    ensures r.Ok? ==> exists k :: FirstClose(rest, k) && rest[..k] in index
  {
    FindClose(rest);
    match IndexOf(rest, ")")
    case None => Err(MissingMarker(")"))
    case Some(k) =>
      var pageLabel := rest[..k];
      FirstCloseUnique(rest, k);
      if pageLabel !in index then Err(UnknownLabel(pageLabel))
      else Ok(Bookmark(LStrip(rest[k + 1..]), level, index[pageLabel] + 1))
  }

  /** The raw bookmark record of a bookmark. */
  function BookmarkRecord(b: Bookmark): (r: seq<string>)
    ensures |r| == 4
  {
    [ "BookmarkBegin",
      TitleKey + ": " + b.title,
      LevelKey + ": " + DecimalString(b.level),
      PageNumberKey + ": " + DecimalString(b.pageNumber) ]
  }

  /** The bookmark lines parsed one by one; the first that fails stops the script. */
  function ParseBookmarkLines(lines: seq<string>, index: map<string, nat>): Result<seq<Bookmark>> {
    MapEach(lines, line => ParseBookmarkLine(line, index))
  }

  function BookmarkRecordList(bms: seq<Bookmark>): (r: seq<seq<string>>)
    ensures |r| == |bms|
  {
    seq(|bms|, k requires 0 <= k < |bms| => BookmarkRecord(bms[k]))
  }

  /** `pdf_bookmark_metadata`: the records of the bookmarks one after another. */
  function BookmarkRecords(bms: seq<Bookmark>): seq<string> {
    Flatten(BookmarkRecordList(bms))
  }

  /** Every bookmark gives exactly four record lines, bookmark i's at 4i. */
  lemma BookmarkRecordsLayout(bms: seq<Bookmark>, i: nat)
    requires i < |bms|
    ensures |BookmarkRecords(bms)| == 4 * |bms|
    ensures BookmarkRecords(bms)[4 * i..4 * i + 4] == BookmarkRecord(bms[i])
  {
    var xss := BookmarkRecordList(bms);
    assert forall k :: 0 <= k < |xss| ==> |xss[k]| == 4;
    assert xss[i] == BookmarkRecord(bms[i]);
    FlattenLayout(xss, 4, i);
  }

  lemma BookmarkRecordsSnoc(bms: seq<Bookmark>, b: Bookmark)
    ensures BookmarkRecords(bms + [b]) == BookmarkRecords(bms) + BookmarkRecord(b)
  {
    var xss := BookmarkRecordList(bms + [b]);
    assert xss[..|bms|] == BookmarkRecordList(bms);
    assert xss[|bms|] == BookmarkRecord(b);
  }

  /** backwardparsing.py:77-92: turn the bookmark lines into records one by one. */
  method ConvertBookmarkLines(bookmarkMetadatas: seq<string>, index: map<string, nat>)
    returns (bookmarks: seq<Bookmark>, records: seq<string>, failure: Option<Error>)
    ensures failure.None? <==> ParseBookmarkLines(bookmarkMetadatas, index).Ok?
    ensures failure.None? ==> bookmarks == ParseBookmarkLines(bookmarkMetadatas, index).value
    ensures failure.None? ==> records == BookmarkRecords(bookmarks)
    ensures failure.Some? ==> failure.value == ParseBookmarkLines(bookmarkMetadatas, index).error
  {
    bookmarks, records := [], [];
    var i := 0;
    while i < |bookmarkMetadatas|
      invariant 0 <= i <= |bookmarkMetadatas|
      invariant ParseBookmarkLines(bookmarkMetadatas[..i], index) == Ok(bookmarks)
      invariant records == BookmarkRecords(bookmarks)
    {
      var parse := line => ParseBookmarkLine(line, index);
      MapEachNext(bookmarkMetadatas, parse, i);
      var b := ParseBookmarkLine(bookmarkMetadatas[i], index);
      if b.Err? {
        MapEachFailed(bookmarkMetadatas, parse, i + 1);
        return bookmarks, records, Some(b.error);
      }
      BookmarkRecordsSnoc(bookmarks, b.value);
      records := records + BookmarkRecord(b.value);
      bookmarks := bookmarks + [b.value];
      i := i + 1;
    }
    assert bookmarkMetadatas[..i] == bookmarkMetadatas;
    return bookmarks, records, None;
  }

  // ---------------------------------------------------------------------------
  // The whole script

  /** The two lists of raw lines the script writes: bookmark records and page-label records. */
  datatype InfoRecords = InfoRecords(bookmarkRecords: seq<string>, counterRecords: seq<string>)

  /** The two sections of the Markdown text: between the headings, and after "# Bookmarks" up to the last line. */
  function Sections(md: seq<string>): Result<(seq<string>, seq<string>)> {
    var counterHeader: int :- match LineIndex(md, CountersHeading)
      case None => Err(MissingMarker(CountersHeading))
      case Some(i) => Ok(i);
    var bookmarkHeader: int :- match LineIndex(md, BookmarksHeading)
      case None => Err(MissingMarker(BookmarksHeading))
      case Some(i) => Ok(i);
    Ok((PySlice(md, counterHeader + 1, bookmarkHeader - 1), PySlice(md, bookmarkHeader + 1, -1)))
  }

  /** backwardparsing.py from the Markdown text's lines to the raw records, or the error that stops it. */
  function BackwardDocument(md: seq<string>): Result<InfoRecords> {
    var pageAmount :- ReadHeader(md);
    var sections :- Sections(md);
    var counters :- ReadCounters(sections.0);
    var labels :- ScriptLabelList(counters, pageAmount);
    var bookmarks :- ParseBookmarkLines(sections.1, LabelIndex(labels));
    Ok(InfoRecords(BookmarkRecords(bookmarks), PageLabelRecords(counters)))
  }

  /**
    The in-memory part of backwardparsing.py, step by step as the script runs, ending with the
    text of output.info as the script writes it: the bookmark lines, then the page-label lines
    with no newline between the two groups (see InfoTextAsWrittenFusesLines).
   */
  method BackwardParse(md: seq<string>) returns (info: InfoRecords, text: string, failure: Option<Error>)
    ensures failure.None? <==> BackwardDocument(md).Ok?
    ensures failure.None? ==> info == BackwardDocument(md).value && text == InfoTextAsWritten(info)
    ensures failure.Some? ==> failure.value == BackwardDocument(md).error
  {
    info, text := InfoRecords([], []), "";
    var pageAmount := ReadHeader(md);
    if pageAmount.Err? {
      return info, text, Some(pageAmount.error);
    }
    var sections := Sections(md);
    if sections.Err? {
      return info, text, Some(sections.error);
    }
    var counters, counterRecords, counterFailure := ReadCounterSection(sections.value.0);
    if counterFailure.Some? {
      return info, text, counterFailure;
    }
    var labels, labelFailure := DeriveScriptLabels(counters, pageAmount.value);
    if labelFailure.Some? {
      return info, text, labelFailure;
    }
    var bookmarks, bookmarkRecords, bookmarkFailure := ConvertBookmarkLines(sections.value.1, LabelIndex(labels));
    if bookmarkFailure.Some? {
      return info, text, bookmarkFailure;
    }
    info := InfoRecords(bookmarkRecords, counterRecords);
    return info, InfoTextAsWritten(info), None;
  }

  // ---------------------------------------------------------------------------
  // The text of output.info (backwardparsing.py:95-97)

  /** As written: the bookmark lines joined with newlines, then the page-label lines joined with newlines. */
  function InfoTextAsWritten(info: InfoRecords): string {
    Join(info.bookmarkRecords, "\n") + Join(info.counterRecords, "\n")
  }

  /** As intended: every record line on a line of its own. */
  function InfoText(info: InfoRecords): string {
    Join(info.bookmarkRecords + info.counterRecords, "\n")
  }

  /** Every record line is a single line of text. */
  predicate RecordLines(info: InfoRecords) {
    (forall k :: 0 <= k < |info.bookmarkRecords| ==> NoNewline(info.bookmarkRecords[k])) &&
    (forall k :: 0 <= k < |info.counterRecords| ==> NoNewline(info.counterRecords[k]))
  }

  /**
    As written, when there are both bookmarks and page labels, the file read back line by line
    has one line fewer than the records: the last bookmark line and the first page-label line
    are fused into one.
   */
  lemma InfoTextAsWrittenFusesLines(info: InfoRecords)
    requires |info.bookmarkRecords| >= 1 && |info.counterRecords| >= 1 && RecordLines(info)
    ensures var b, c := info.bookmarkRecords, info.counterRecords;
      SplitAll(InfoTextAsWritten(info), "\n") == b[..|b| - 1] + [b[|b| - 1] + c[0]] + c[1..]
    ensures |SplitAll(InfoTextAsWritten(info), "\n")| == |info.bookmarkRecords| + |info.counterRecords| - 1
  {
    var b, c := info.bookmarkRecords, info.counterRecords;
    var glued := b[..|b| - 1] + [b[|b| - 1] + c[0]] + c[1..];
    JoinGlued(b, c, "\n");
    forall k | 0 <= k < |glued| ensures NoNewline(glued[k]) {
      if k == |b| - 1 {
        assert NoNewline(b[|b| - 1]) && NoNewline(c[0]);
        assert glued[k] == b[|b| - 1] + c[0];
      } else if k < |b| - 1 {
        assert glued[k] == b[k];
      } else {
        assert glued[k] == c[k - |b| + 1];
      }
    }
    SplitJoinLines(glued);
  }

  /**
    For the records of at least one bookmark and one counter, the fused line is the last
    bookmark's page line followed directly by "PageLabelBegin".
   */
  lemma InfoTextAsWrittenLosesPageLabelBegin(bms: seq<Bookmark>, cs: seq<ScriptCounter>)
    requires |bms| >= 1 && |cs| >= 1
    ensures var b, c := BookmarkRecords(bms), PageLabelRecords(cs);
      |b| >= 1 && |c| >= 1 &&
      b[|b| - 1] + c[0] == PageNumberKey + ": " + DecimalString(bms[|bms| - 1].pageNumber) + "PageLabelBegin"
  {
    var b, c := BookmarkRecords(bms), PageLabelRecords(cs);
    BookmarkRecordsLayout(bms, |bms| - 1);
    PageLabelRecordsLayout(cs, 0);
    assert b[|b| - 1] == b[4 * (|bms| - 1)..4 * (|bms| - 1) + 4][3];
    assert c[0] == c[0..4][0];
  }

  /** As intended, the file read back line by line gives exactly the bookmark records, then the page-label records. */
  lemma InfoTextSplitsIntoRecords(info: InfoRecords)
    requires |info.bookmarkRecords| + |info.counterRecords| >= 1 && RecordLines(info)
    ensures SplitAll(InfoText(info), "\n") == info.bookmarkRecords + info.counterRecords
  {
    var b, c := info.bookmarkRecords, info.counterRecords;
    forall k | 0 <= k < |b + c| ensures NoNewline((b + c)[k]) {
      if k < |b| {
        assert (b + c)[k] == b[k];
      } else {
        assert (b + c)[k] == c[k - |b|];
      }
    }
    SplitJoinLines(b + c);
  }
}
