/**
  `Metadata` of bookmarks.py: the document object that collects bookmarks and counters from
  the metadata dump, derives the per-page label list and renders the Markdown text.
 */
module MetadataDocument {
  import opened Results
  import opened Text
  import opened Numerals
  import opened Records
  import opened RawScan
  import opened PageLabels

  // ---------------------------------------------------------------------------
  // Value-level descriptions of what the methods do to the counters

  /** No counter object is listed twice. */
  predicate Distinct(cs: seq<Counter>) {
    forall i, j :: 0 <= i < j < |cs| ==> cs[i] != cs[j]
  }

  /** The `stop_at_page` of each counter. */
  function Stops(cs: seq<Counter>): (r: seq<Option<int>>)
    reads cs
    ensures |r| == |cs|
  {
    if |cs| == 0 then [] else Stops(cs[..|cs| - 1]) + [cs[|cs| - 1].stopAtPage]
  }

  lemma {:induction false} StopsAt(cs: seq<Counter>, i: nat)
    requires i < |cs|
    ensures Stops(cs)[i] == cs[i].stopAtPage
    decreases |cs|
  {
    if i < |cs| - 1 {
      StopsAt(cs[..|cs| - 1], i);
    }
  }

  lemma StopsAppend(cs: seq<Counter>, c: Counter)
    ensures Stops(cs + [c]) == Stops(cs) + [c.stopAtPage]
  {
    assert (cs + [c])[..|cs|] == cs;
  }

  function Nones(n: nat): (r: seq<Option<int>>)
    ensures |r| == n
    ensures forall i :: 0 <= i < n ==> r[i] == None
  {
    seq(n, _ => None)
  }

  /**
    `_check_and_update_counter` on the counter values: the counters afterwards (with the
    default counter appended when page 1 is uncovered), and the labels it appends with the
    error that stops it. An empty counter list fails at `self.counters[0]`.
   */
  function CheckCounters(vs: seq<CounterValue>, pageAmount: int): (seq<CounterValue>, Derivation) {
    if |vs| == 0 then (vs, Derivation([], Some(IndexOutOfRange(0))))
    else
      var ws := WithDefaultCounter(vs);
      (ws, DeriveLabels(ws, pageAmount))
  }

  /** The stops before the derivation: the default counter, when appended, has none. */
  function StopsBefore(stops: seq<Option<int>>, vs: seq<CounterValue>): seq<Option<int>> {
    if |vs| >= 1 && vs[0].startAtPage > 1 then stops + [None] else stops
  }

  /**
    The stops after the derivation: every non-last counter whose span was reached stops one
    page before the next counter starts; every other counter keeps its stop from `before`.
   */
  function DerivedStops(vs: seq<CounterValue>, pageAmount: int, before: seq<Option<int>>): (r: seq<Option<int>>)
    requires |before| == |vs|
    ensures |r| == |vs|
  {
    seq(|vs|, j requires 0 <= j < |vs| => DerivedStop(vs, pageAmount, before, j))
  }

  /**
    The stop of counter j after the derivation: the page before the next counter's start when
    the derivation reached counter j, otherwise the stop it had before.
   */
  function DerivedStop(vs: seq<CounterValue>, pageAmount: int, before: seq<Option<int>>, j: nat): Option<int>
    requires |before| == |vs| && j < |vs|
  {
    if j < |vs| - 1 && DeriveUpTo(vs, pageAmount, j).failure.None? then Some(vs[j + 1].startAtPage - 1) else before[j]
  }

  /** The stops once the first i counters have been handled. */
  function StopsThrough(vs: seq<CounterValue>, before: seq<Option<int>>, i: nat): (r: seq<Option<int>>)
    requires |before| == |vs|
    ensures |r| == |vs|
  {
    seq(|vs|, j requires 0 <= j < |vs| => StopThrough(vs, before, i, j))
  }

  /** The stop of counter j once the first i counters have been handled. */
  function StopThrough(vs: seq<CounterValue>, before: seq<Option<int>>, i: nat, j: nat): Option<int>
    requires |before| == |vs| && j < |vs|
  {
    if j < i && j < |vs| - 1 then Some(vs[j + 1].startAtPage - 1) else before[j]
  }

  /**
    After a derivation that succeeds, each non-last counter's stop is the last page of its
    span: the span from its start to its stop has exactly as many pages as it has labels.
   */
  lemma DerivedStopsEndSpans(vs: seq<CounterValue>, pageAmount: int, before: seq<Option<int>>, j: nat)
    requires |before| == |vs| && j < |vs| - 1
    requires DeriveLabels(vs, pageAmount).failure.None?
    ensures DerivedStops(vs, pageAmount, before)[j].Some?
    ensures DerivedStops(vs, pageAmount, before)[j].value - vs[j].startAtPage + 1 == SpanLength(vs, j, pageAmount)
  {
    DeriveUpToPrefix(vs, pageAmount, j, |vs|);
    assert DerivedStops(vs, pageAmount, before)[j] == DerivedStop(vs, pageAmount, before, j);
  }

  /**
    When the default counter is appended (bookmarks.py:326-339), the last existing counter
    reaches it in the loop and gets stop page 0, the page before the default counter's
    start; the default counter, last, keeps no stop.
   */
  lemma AppendedDefaultCounterStops(vs: seq<CounterValue>, pageAmount: int, stops: seq<Option<int>>)
    requires |vs| >= 1 && vs[0].startAtPage > 1 && |stops| == |vs|
    requires DeriveUpTo(vs, pageAmount, |vs| - 1).failure.None?
    ensures |CheckCounters(vs, pageAmount).0| == |vs| + 1
    ensures var st := DerivedStops(CheckCounters(vs, pageAmount).0, pageAmount, StopsBefore(stops, vs));
      st[|vs| - 1] == Some(0) && st[|vs|] == None
  {
    var ws := vs + [DefaultCounter];
    DeriveUpToExtend(vs, [DefaultCounter], pageAmount, |vs| - 1);
    var before := StopsBefore(stops, vs);
    assert DerivedStops(ws, pageAmount, before)[|vs| - 1] == DerivedStop(ws, pageAmount, before, |vs| - 1);
    assert DerivedStops(ws, pageAmount, before)[|vs|] == DerivedStop(ws, pageAmount, before, |vs|);
  }

  /**
    `_create_counters_from_pdf_metadatas` on the counter values `vs` already held: the
    scanned counters are appended one by one; a scan error stops there, otherwise the
    derivation runs on all of them.
   */
  function CreateCounters(vs: seq<CounterValue>, pdfMetadatas: seq<string>, pageAmount: int): (seq<CounterValue>, Derivation) {
    var scan := ScanCounters(pdfMetadatas);
    if scan.failure.Some? then (vs + scan.emitted, Derivation([], scan.failure))
    else CheckCounters(vs + scan.emitted, pageAmount)
  }

  /** The first Roman counter that counts from 0 or below stops the derivation; every counter before it has a stop. */
  lemma {:induction false} DeriveFailureSticks(vs: seq<CounterValue>, pageAmount: int, j: nat, k: nat)
    requires j <= k <= |vs|
    requires DeriveUpTo(vs, pageAmount, j).failure.Some?
    ensures DeriveUpTo(vs, pageAmount, k) == DeriveUpTo(vs, pageAmount, j)
    decreases k
  {
    if j < k {
      DeriveFailureSticks(vs, pageAmount, j, k - 1);
    }
  }

  /** An error of a span is the error of its first page. */
  lemma {:induction false} SpanLabelsError(style: Style, from: int, count: int)
    requires SpanLabels(style, from, count).Err?
    ensures HasLabels(style) && PageToLabel(style, from).Err?
    ensures SpanLabels(style, from, count).error == PageToLabel(style, from).error
    decreases count
  {
    if count > 1 {
      SpanLabelsError(style, from, count - 1);
    }
  }

  /** A page whose numeral fails inside a span that went well so far is the span's first page, and the span fails with it. */
  lemma NumeralFails(style: Style, from: int, n: nat, count: int, appended: seq<string>)
    requires HasLabels(style) && n < count
    requires SpanLabels(style, from, n) == Ok(appended)
    requires PageToLabel(style, from + n).Err?
    ensures SpanLabels(style, from, count) == Err(PageToLabel(style, from + n).error)
  {
    assert n == 0;
    SpanLabelsError(style, from, count);
  }

  /** A span one page longer has one more label, that page's. */
  lemma SpanLabelsNext(style: Style, from: int, k: nat)
    requires HasLabels(style)
    requires SpanLabels(style, from, k).Ok? && PageToLabel(style, from + k).Ok?
    ensures SpanLabels(style, from, k + 1) == Ok(SpanLabels(style, from, k).value + [PageToLabel(style, from + k).value])
  {
  }

  /** `["None" for _ in range(count)]`: the labels of a NoNumber span. */
  function NoNumberLabels(count: int): (r: seq<string>)
    ensures |r| == (if count <= 0 then 0 else count)
    ensures forall k :: 0 <= k < |r| ==> r[k] == "None"
  {
    if count <= 0 then [] else seq(count, _ => "None")
  }

  lemma NoNumberSpan(from: int, count: int)
    ensures SpanLabels(NoNumber, from, count) == Ok(NoNumberLabels(count))
  {
    var r := SpanLabels(NoNumber, from, count).value;
    assert |r| == |NoNumberLabels(count)|;
    forall k | 0 <= k < |r| ensures r[k] == NoNumberLabels(count)[k] {
      SpanLabelAt(NoNumber, from, count, k);
    }
    assert r == NoNumberLabels(count);
  }

  /** Running a scanner over one more line is one more step. */
  lemma BookmarkRunNext(lines: seq<string>, i: nat)
    requires i < |lines|
    ensures RunBookmarks(BookmarkScanStart, lines[..i + 1]) ==
      BookmarkStep(RunBookmarks(BookmarkScanStart, lines[..i]), lines[i])
  {
    assert lines[..i + 1][..i] == lines[..i];
  }

  lemma CounterRunNext(lines: seq<string>, i: nat)
    requires i < |lines|
    ensures RunCounters(CounterScanStart, lines[..i + 1]) ==
      CounterStep(RunCounters(CounterScanStart, lines[..i]), lines[i])
  {
    assert lines[..i + 1][..i] == lines[..i];
  }

  /** A scanner run that has failed after line i ends in that state. */
  lemma BookmarkRunFailed(lines: seq<string>, i: nat)
    requires i < |lines|
    requires RunBookmarks(BookmarkScanStart, lines[..i + 1]).failure.Some?
    ensures RunBookmarks(BookmarkScanStart, lines) == RunBookmarks(BookmarkScanStart, lines[..i + 1])
  {
    SplitAt(lines, i + 1);
    RunBookmarksAppend(BookmarkScanStart, lines[..i + 1], lines[i + 1..]);
    BookmarkFailureSticks(RunBookmarks(BookmarkScanStart, lines[..i + 1]), lines[i + 1..]);
  }

  lemma CounterRunFailed(lines: seq<string>, i: nat)
    requires i < |lines|
    requires RunCounters(CounterScanStart, lines[..i + 1]).failure.Some?
    ensures RunCounters(CounterScanStart, lines) == RunCounters(CounterScanStart, lines[..i + 1])
  {
    SplitAt(lines, i + 1);
    RunCountersAppend(CounterScanStart, lines[..i + 1], lines[i + 1..]);
    CounterFailureSticks(RunCounters(CounterScanStart, lines[..i + 1]), lines[i + 1..]);
  }

  // ---------------------------------------------------------------------------
  // The Markdown text

  /** The block `_forward_parse_counters` writes for counter number `index`. */
  function CounterBlock(index: int, c: CounterValue): (r: seq<string>)
    ensures |r| == 5
  {
    ["Counter " + DecimalString(index) + ":"] + CounterLines(c) + [""]
  }

  /** The blocks of the counters `vs`, the k-th one numbered k. */
  function CounterBlockList(vs: seq<CounterValue>): (r: seq<seq<string>>)
    ensures |r| == |vs|
  {
    seq(|vs|, k requires 0 <= k < |vs| => CounterBlock(k, vs[k]))
  }

  /** The lines of the counters `vs`: their blocks one after another. */
  function CounterBlocks(vs: seq<CounterValue>): seq<string> {
    Flatten(CounterBlockList(vs))
  }

  /** A bookmark line of the Markdown text: indentation, `- `, the title, a space and the page's label. */
  function BookmarkMdLine(b: Bookmark, pageLabel: string): string {
    Indent(b.level) + "- " + b.title + " " + pageLabel
  }

  /** The bookmark lines, or the error of the first bookmark whose page has no label. */
  function BookmarkMdLines(bms: seq<Bookmark>, labels: seq<string>): (r: Result<seq<string>>)
    ensures r.Ok? ==> |r.value| == |bms|
    ensures r.Err? <==> exists i :: 0 <= i < |bms| && PyIndex(labels, bms[i].pageNumber - 1).None?
  {
    if |bms| == 0 then Ok([])
    else
      var init := BookmarkMdLines(bms[..|bms| - 1], labels);
      var b := bms[|bms| - 1];
      assert forall i :: 0 <= i < |bms| - 1 ==> bms[..|bms| - 1][i] == bms[i];
      if init.Err? then
        var i :| 0 <= i < |bms| - 1 && PyIndex(labels, bms[..|bms| - 1][i].pageNumber - 1).None?;
        assert PyIndex(labels, bms[i].pageNumber - 1).None?;
        init
      else match PyIndex(labels, b.pageNumber - 1)
        case None => Err(IndexOutOfRange(b.pageNumber - 1))
        case Some(l) => Ok(init.value + [BookmarkMdLine(b, l)])
  }

  /** The header of the Markdown text. */
  function MdHeader(pageAmount: int): seq<string> {
    ["# Pages amount: " + DecimalString(pageAmount), "", "# Counters", ""]
  }

  /** The whole Markdown text of `output_to_md`, one string per line. */
  function MdLines(pageAmount: int, vs: seq<CounterValue>, bms: seq<Bookmark>, labels: seq<string>): Result<seq<string>> {
    var bookmarkLines :- BookmarkMdLines(bms, labels);
    Ok(MdHeader(pageAmount) + CounterBlocks(vs) + ["# Bookmarks", ""] + bookmarkLines)
  }

  /** Every counter takes exactly five lines of the Markdown text, the i-th one numbered i. */
  lemma CounterBlocksLayout(vs: seq<CounterValue>, i: nat)
    requires i < |vs|
    ensures |CounterBlocks(vs)| == 5 * |vs|
    ensures CounterBlocks(vs)[5 * i..5 * i + 5] == CounterBlock(i, vs[i])
  {
    var xss := CounterBlockList(vs);
    assert forall k :: 0 <= k < |xss| ==> |xss[k]| == 5;
    assert xss[i] == CounterBlock(i, vs[i]);
    FlattenLayout(xss, 5, i);
  }

  /** One more counter adds its block, numbered after the ones before it. */
  lemma CounterBlocksNext(vs: seq<CounterValue>, i: nat)
    requires i < |vs|
    ensures CounterBlocks(vs[..i + 1]) == CounterBlocks(vs[..i]) + CounterBlock(i, vs[i])
  {
    var xss := CounterBlockList(vs[..i + 1]);
    assert xss[..i] == CounterBlockList(vs[..i]);
    assert xss[i] == CounterBlock(i, vs[i]);
  }

  /** One more bookmark after bookmarks that all have labels: its line, or the error of its page. */
  lemma BookmarkMdLinesNext(bms: seq<Bookmark>, labels: seq<string>, i: nat)
    requires i < |bms| && BookmarkMdLines(bms[..i], labels).Ok?
    ensures BookmarkMdLines(bms[..i + 1], labels) ==
      match PyIndex(labels, bms[i].pageNumber - 1)
      case None => Err(IndexOutOfRange(bms[i].pageNumber - 1))
      case Some(l) => Ok(BookmarkMdLines(bms[..i], labels).value + [BookmarkMdLine(bms[i], l)])
  {
    assert bms[..i + 1][..i] == bms[..i];
  }

  /** Once a bookmark has no label, the lines of all bookmarks fail with its error. */
  lemma {:induction false} BookmarkMdLinesFailed(bms: seq<Bookmark>, labels: seq<string>, i: nat)
    requires i < |bms| && BookmarkMdLines(bms[..i + 1], labels).Err?
    ensures BookmarkMdLines(bms, labels) == BookmarkMdLines(bms[..i + 1], labels)
    decreases |bms|
  {
    if i + 1 < |bms| {
      var init := bms[..|bms| - 1];
      assert init[..i + 1] == bms[..i + 1];
      BookmarkMdLinesFailed(init, labels, i);
    } else {
      assert bms[..i + 1] == bms;
    }
  }

  /** A bookmark line starts with the bookmark's indentation, from which its level is read back. */
  lemma BookmarkMdLineLevel(b: Bookmark, pageLabel: string)
    requires b.level >= 1
    ensures LeadingSpaces(BookmarkMdLine(b, pageLabel)) / 4 + 1 == b.level
    ensures LStrip(BookmarkMdLine(b, pageLabel)) == "- " + b.title + " " + pageLabel
  {
    var rest := "- " + b.title + " " + pageLabel;
    assert BookmarkMdLine(b, pageLabel) == Indent(b.level) + rest;
    IndentGivesLevel(b.level, rest);
  }

  // ---------------------------------------------------------------------------
  // The document object

  class Metadata {
    const pageAmount: int
    var counters: seq<Counter>
    var bookmarks: seq<Bookmark>
    var labelList: seq<string>
    const metadatas: seq<string>

    /** Every document starts with an empty label list and its own sequences. */
    constructor (pageAmount: int, counters: seq<Counter>, bookmarks: seq<Bookmark>, metadatas: seq<string>)
      ensures this.pageAmount == pageAmount && this.metadatas == metadatas
      ensures this.counters == counters && this.bookmarks == bookmarks && this.labelList == []
    {
      this.pageAmount := pageAmount;
      this.counters := counters;
      this.bookmarks := bookmarks;
      this.labelList := [];
      this.metadatas := metadatas;
    }

    /** `add_bookmark_to_bookmarks`. */
    method AddBookmark(b: Bookmark)
      modifies this
      ensures bookmarks == old(bookmarks) + [b]
      ensures counters == old(counters) && labelList == old(labelList)
    {
      bookmarks := bookmarks + [b];
    }

    /** `add_counter_to_counters`. */
    method AddCounter(c: Counter)
      modifies this
      ensures counters == old(counters) + [c]
      ensures bookmarks == old(bookmarks) && labelList == old(labelList)
    {
      counters := counters + [c];
    }


    /** One line of the scanning loop of `_create_bookmarks_from_pdf_metadatas`. */
    method ScanBookmarkLine(line: string, title: string, level: Option<int>, page: Option<int>, kind: FieldKind,
                            ghost start: seq<Bookmark>, ghost emitted: seq<Bookmark>)
      returns (title': string, level': Option<int>, page': Option<int>, kind': FieldKind,
               failure: Option<Error>, ghost emitted': seq<Bookmark>)
      requires bookmarks == start + emitted
      modifies this
      ensures BookmarkStep(BookmarkScan(title, level, page, kind, emitted, None), line) ==
        BookmarkScan(title', level', page', kind', emitted', failure)
      ensures bookmarks == start + emitted'
      ensures counters == old(counters) && labelList == old(labelList)
    {
      title', level', page', kind', failure, emitted' := title, level, page, kind, None, emitted;
      if line != BookmarkDelimiter {
        title', level', page', kind', failure := ReadBookmarkField(line, title, level, page, kind, emitted);
      } else if level.Some? && page.Some? {
        var b := Bookmark(title, level.value, page.value);
        AddBookmark(b);
        emitted' := emitted + [b];
        title', level', page' := "", None, None;
      } else {
        failure := Some(MissingField);
      }
    }

    /**
      `_create_bookmarks_from_pdf_metadatas`: appends the bookmarks of the dump and returns
      the error that stopped the scan, keeping the bookmarks appended before it.
     */
    method CreateBookmarksFromPdfMetadatas(pdfMetadatas: seq<string>) returns (failure: Option<Error>)
      modifies this
      ensures failure == ScanBookmarks(pdfMetadatas).failure
      ensures bookmarks == old(bookmarks) + ScanBookmarks(pdfMetadatas).emitted
      ensures counters == old(counters) && labelList == old(labelList)
    {
      var normalized := Normalize(SubRange(pdfMetadatas, "Bookmark"), BookmarkDelimiter);
      if normalized.Err? {
        return Some(normalized.error);
      }
      failure := ScanBookmarkLines(normalized.value);
    }

    /** The loop over the normalized bookmark lines, appending a bookmark at each delimiter. */
    method ScanBookmarkLines(lines: seq<string>) returns (failure: Option<Error>)
      modifies this
      ensures failure == RunBookmarks(BookmarkScanStart, lines).failure
      ensures bookmarks == old(bookmarks) + RunBookmarks(BookmarkScanStart, lines).emitted
      ensures counters == old(counters) && labelList == old(labelList)
    {
      var title, level, page, kind := "", Some(0), Some(0), TitleField;
      ghost var emitted: seq<Bookmark> := [];
      var i := 0;
      while i < |lines|
        invariant 0 <= i <= |lines|
        invariant RunBookmarks(BookmarkScanStart, lines[..i]) == BookmarkScan(title, level, page, kind, emitted, None)
        invariant bookmarks == old(bookmarks) + emitted
        invariant counters == old(counters) && labelList == old(labelList)
      {
        var lineFailure;
        title, level, page, kind, lineFailure, emitted := ScanBookmarkLineAt(lines, i, title, level, page, kind, old(bookmarks), emitted);
        if lineFailure.Some? {
          BookmarkRunFailed(lines, i);
          return lineFailure;
        }
        i := i + 1;
      }
      assert lines[..|lines|] == lines;
      return None;
    }

    /** Line i of the bookmark loop, continuing the run over the lines before it. */
    method ScanBookmarkLineAt(lines: seq<string>, i: nat, title: string, level: Option<int>, page: Option<int>, kind: FieldKind,
                              ghost start: seq<Bookmark>, ghost emitted: seq<Bookmark>)
      returns (title': string, level': Option<int>, page': Option<int>, kind': FieldKind,
               failure: Option<Error>, ghost emitted': seq<Bookmark>)
      requires i < |lines| && bookmarks == start + emitted
      requires RunBookmarks(BookmarkScanStart, lines[..i]) == BookmarkScan(title, level, page, kind, emitted, None)
      modifies this
      ensures RunBookmarks(BookmarkScanStart, lines[..i + 1]) == BookmarkScan(title', level', page', kind', emitted', failure)
      ensures bookmarks == start + emitted'
      ensures counters == old(counters) && labelList == old(labelList)
    {
      BookmarkRunNext(lines, i);
      title', level', page', kind', failure, emitted' := ScanBookmarkLine(lines[i], title, level, page, kind, start, emitted);
    }

    /**
      The labels of one counter's span appended to `label_list` page by page
      (bookmarks.py:340-353 and 355-371); a Roman span counting from 0 or below fails at
      its first page, before anything is appended.
     */
    method AppendSpanLabels(style: Style, from: int, count: int) returns (failure: Option<Error>)
      modifies this
      ensures SpanLabels(style, from, count).Err? ==>
        failure == Some(SpanLabels(style, from, count).error) && labelList == old(labelList)
      ensures SpanLabels(style, from, count).Ok? ==>
        failure.None? && labelList == old(labelList) + SpanLabels(style, from, count).value
      ensures counters == old(counters) && bookmarks == old(bookmarks)
    {
      if !HasLabels(style) {
        NoNumberSpan(from, count);
        labelList := labelList + NoNumberLabels(count);
        return None;
      }
      failure := AppendNumerals(style, from, count);
    }

    /** The numbered branch of the span loop: the label of each page in turn, stopping at the first that fails. */
    method AppendNumerals(style: Style, from: int, count: int) returns (failure: Option<Error>)
      requires HasLabels(style)
      modifies this
      ensures SpanLabels(style, from, count).Err? ==>
        failure == Some(SpanLabels(style, from, count).error) && labelList == old(labelList)
      ensures SpanLabels(style, from, count).Ok? ==>
        failure.None? && labelList == old(labelList) + SpanLabels(style, from, count).value
      ensures counters == old(counters) && bookmarks == old(bookmarks)
    {
      var n := 0;
      ghost var appended: seq<string> := [];
      while n < count
        invariant 0 <= n && (count >= 0 ==> n <= count) && (count < 0 ==> n == 0)
        invariant SpanLabels(style, from, n) == Ok(appended)
        invariant labelList == old(labelList) + appended
        invariant counters == old(counters) && bookmarks == old(bookmarks)
      {
        var numeral := PageToLabel(style, from + n);
        if numeral.Err? {
          NumeralFails(style, from, n, count, appended);
          return Some(numeral.error);
        }
        SpanLabelsNext(style, from, n);
        labelList := labelList + [numeral.value];
        appended := appended + [numeral.value];
        n := n + 1;
      }
      return None;
    }

    /**
      First half of one step of the loop of `_check_and_update_counter`: counter i stops one
      page before the next counter, when there is one.
     */
    method SetStop(i: nat, ghost before: seq<Option<int>>)
      requires i < |counters| == |before|
      requires Distinct(counters)
      requires Stops(counters) == StopsThrough(Values(counters), before, i)
      modifies counters[i]
      ensures Stops(counters) == StopsThrough(Values(counters), before, i + 1)
    {
      ghost var vs := Values(counters);
      forall j | 0 <= j < |counters|
        ensures counters[j].stopAtPage == StopsThrough(vs, before, i)[j]
      {
        StopsAt(counters, j);
      }
      var c := counters[i];
      if i + 1 < |counters| {
        ValuesAt(counters, i + 1);
        c.stopAtPage := Some(counters[i + 1].startAtPage - 1);
      }
      forall j | 0 <= j < |counters|
        ensures Stops(counters)[j] == StopsThrough(vs, before, i + 1)[j]
      {
        StopsAt(counters, j);
        if j != i {
          assert counters[j] != c;
        }
      }
    }

    /**
      Second half: the labels of counter i's span are appended to `label_list`; `derived` is
      what the spans before it have appended after `start`.
     */
    method AppendCounterSpan(i: nat, ghost start: seq<string>, ghost derived: seq<string>)
      returns (failure: Option<Error>)
      requires i < |counters|
      requires DeriveUpTo(Values(counters), pageAmount, i) == Derivation(derived, None)
      requires labelList == start + derived
      modifies this
      ensures counters == old(counters) && bookmarks == old(bookmarks)
      ensures failure == DeriveUpTo(Values(counters), pageAmount, i + 1).failure
      ensures failure.Some? ==> labelList == old(labelList)
      ensures failure.None? ==> labelList == start + DeriveUpTo(Values(counters), pageAmount, i + 1).labels
    {
      ghost var vs := Values(counters);
      var c := counters[i];
      var end := if i + 1 < |counters| then counters[i + 1].startAtPage else pageAmount + 1;
      ValuesAt(counters, i);
      if i + 1 < |counters| {
        ValuesAt(counters, i + 1);
      }
      assert end - c.startAtPage == SpanLength(vs, i, pageAmount);
      ghost var span := SpanLabels(vs[i].style, vs[i].startCountingFrom, SpanLength(vs, i, pageAmount));
      failure := AppendSpanLabels(c.style, c.startCountingFrom, end - c.startAtPage);
      DeriveUpToNext(vs, pageAmount, i);
      if span.Ok? {
        AppendAssociates(start, derived, span.value);
      }
    }

    /**
      One step of the loop of `_check_and_update_counter` (bookmarks.py:340-371).
     */
    method UpdateCounter(i: nat, ghost before: seq<Option<int>>, ghost start: seq<string>, ghost derived: seq<string>)
      returns (failure: Option<Error>)
      requires i < |counters| == |before|
      requires Distinct(counters)
      requires Stops(counters) == StopsThrough(Values(counters), before, i)
      requires DeriveUpTo(Values(counters), pageAmount, i) == Derivation(derived, None)
      requires labelList == start + derived
      modifies this, counters[i]
      ensures counters == old(counters) && bookmarks == old(bookmarks)
      ensures Stops(counters) == StopsThrough(Values(counters), before, i + 1)
      ensures failure == DeriveUpTo(Values(counters), pageAmount, i + 1).failure
      ensures failure.Some? ==> labelList == old(labelList)
      ensures failure.None? ==> labelList == start + DeriveUpTo(Values(counters), pageAmount, i + 1).labels
    {
      SetStop(i, before);
      failure := AppendCounterSpan(i, start, derived);
    }

    /**
      The loop of `_check_and_update_counter` (bookmarks.py:338-371): sets each non-last
      counter's stop to the page before the next counter and appends every counter's span
      labels to `label_list`, stopping at the first span that fails.
     */
    method SetStopsAndLabels() returns (failure: Option<Error>)
      requires Distinct(counters)
      modifies this, counters
      ensures counters == old(counters) && bookmarks == old(bookmarks)
      ensures labelList == old(labelList) + DeriveLabels(Values(counters), pageAmount).labels
      ensures failure == DeriveLabels(Values(counters), pageAmount).failure
      ensures Stops(counters) == DerivedStops(Values(counters), pageAmount, old(Stops(counters)))
    {
      ghost var vs := Values(counters);
      ghost var before := Stops(counters);
      ghost var derived: seq<string> := [];
      StopsAtStart(vs, before);
      var i := 0;
      while i < |counters|
        invariant 0 <= i <= |counters|
        invariant counters == old(counters) && bookmarks == old(bookmarks)
        invariant DeriveUpTo(vs, pageAmount, i) == Derivation(derived, None)
        invariant labelList == old(labelList) + derived
        invariant Stops(counters) == StopsThrough(vs, before, i)
      {
        var spanFailure := UpdateCounter(i, before, old(labelList), derived);
        if spanFailure.Some? {
          StopsAtFailure(vs, pageAmount, before, i);
          return spanFailure;
        }
        derived := DeriveUpTo(vs, pageAmount, i + 1).labels;
        i := i + 1;
      }
      StopsAtEnd(vs, pageAmount, before);
      return None;
    }

    /**
      `_check_and_update_counter`: when the first counter starts after page 1, a Roman
      counter from page 1 is added with `add_counter_to_counters`, that is after the others;
      then every counter's stop and labels are derived. An empty counter list is an error.
     */
    method CheckAndUpdateCounter() returns (failure: Option<Error>)
      requires Distinct(counters)
      modifies this, counters
      ensures Distinct(counters)
      ensures |counters| >= old(|counters|) && counters[..old(|counters|)] == old(counters)
      ensures fresh(set c | c in counters && c !in old(counters))
      ensures Values(counters) == CheckCounters(old(Values(counters)), pageAmount).0
      ensures labelList == old(labelList) + CheckCounters(old(Values(counters)), pageAmount).1.labels
      ensures failure == CheckCounters(old(Values(counters)), pageAmount).1.failure
      ensures Stops(counters) == DerivedStops(Values(counters), pageAmount, StopsBefore(old(Stops(counters)), old(Values(counters))))
      ensures bookmarks == old(bookmarks)
    {
      if |counters| == 0 {
        return Some(IndexOutOfRange(0));
      }
      ValuesAt(counters, 0);
      if counters[0].startAtPage > 1 {
        AddNewCounter(1, 1, UppercaseRomanNumerals, None);
      }
      failure := SetStopsAndLabels();
    }

    /**
      `_create_counters_from_pdf_metadatas`: appends a new counter for every record of the
      dump and, when the whole scan succeeds, runs the derivation on all counters.
     */
    method CreateCountersFromPdfMetadatas(pdfMetadatas: seq<string>) returns (failure: Option<Error>)
      requires Distinct(counters)
      modifies this, counters
      ensures Distinct(counters)
      ensures Values(counters) == CreateCounters(old(Values(counters)), pdfMetadatas, pageAmount).0
      ensures labelList == old(labelList) + CreateCounters(old(Values(counters)), pdfMetadatas, pageAmount).1.labels
      ensures failure == CreateCounters(old(Values(counters)), pdfMetadatas, pageAmount).1.failure
      ensures var scan := ScanCounters(pdfMetadatas);
        var stops := old(Stops(counters)) + Nones(|scan.emitted|);
        if scan.failure.Some? then Stops(counters) == stops
        else Stops(counters) == DerivedStops(Values(counters), pageAmount, StopsBefore(stops, old(Values(counters)) + scan.emitted))
      ensures bookmarks == old(bookmarks)
    {
      failure := ScanCountersInto(pdfMetadatas);
      if failure.None? {
        failure := CheckAndUpdateCounter();
      }
    }

    /** `self.add_counter_to_counters(Counter(...))` with a new counter that has no stop yet. */
    method AddNewCounter(startCountingFrom: int, startAtPage: int, style: Style, prefix: Option<string>)
      requires Distinct(counters)
      modifies this
      ensures Distinct(counters)
      ensures |counters| == old(|counters|) + 1 && counters[..old(|counters|)] == old(counters)
      ensures fresh(set c | c in counters && c !in old(counters))
      ensures Values(counters) == old(Values(counters)) + [CounterValue(startCountingFrom, startAtPage, style, prefix)]
      ensures Stops(counters) == old(Stops(counters)) + [None]
      ensures labelList == old(labelList) && bookmarks == old(bookmarks)
    {
      var c := new Counter(startCountingFrom, startAtPage, style, prefix, None);
      AddCounter(c);
      StopsAppend(old(counters), c);
      ValuesAppend(old(counters), c);
    }

    /** A counter record completed during the scan: appended as a new counter with no stop. */
    method EmitCounter(startCountingFrom: int, startAtPage: int, style: Style, prefix: Option<string>,
                       ghost values: seq<CounterValue>, ghost stops: seq<Option<int>>, ghost emitted: seq<CounterValue>)
      requires Distinct(counters)
      requires Values(counters) == values + emitted && Stops(counters) == stops + Nones(|emitted|)
      modifies this
      ensures Distinct(counters)
      ensures fresh(set c | c in counters && c !in old(counters))
      ensures Values(counters) == values + (emitted + [CounterValue(startCountingFrom, startAtPage, style, prefix)])
      ensures Stops(counters) == stops + Nones(|emitted| + 1)
      ensures labelList == old(labelList) && bookmarks == old(bookmarks)
    {
      AddNewCounter(startCountingFrom, startAtPage, style, prefix);
      assert Values(counters) == values + (emitted + [CounterValue(startCountingFrom, startAtPage, style, prefix)]);
      assert Stops(counters) == stops + Nones(|emitted| + 1);
    }

    /** One line of the scanning loop of `_create_counters_from_pdf_metadatas`. */
    method ScanCounterLine(line: string, startCountingFrom: Option<int>, startAtPage: Option<int>, prefix: string, style: Style,
                           ghost values: seq<CounterValue>, ghost stops: seq<Option<int>>, ghost emitted: seq<CounterValue>)
      returns (startCountingFrom': Option<int>, startAtPage': Option<int>, prefix': string, style': Style,
               failure: Option<Error>, ghost emitted': seq<CounterValue>)
      requires Distinct(counters)
      requires Values(counters) == values + emitted && Stops(counters) == stops + Nones(|emitted|)
      modifies this
      ensures Distinct(counters)
      ensures fresh(set c | c in counters && c !in old(counters))
      ensures CounterStep(CounterScan(startCountingFrom, startAtPage, prefix, style, emitted, None), line) ==
        CounterScan(startCountingFrom', startAtPage', prefix', style', emitted', failure)
      ensures Values(counters) == values + emitted' && Stops(counters) == stops + Nones(|emitted'|)
      ensures labelList == old(labelList) && bookmarks == old(bookmarks)
    {
      startCountingFrom', startAtPage', prefix', style', failure, emitted' := startCountingFrom, startAtPage, prefix, style, None, emitted;
      if line != CounterDelimiter {
        startCountingFrom', startAtPage', prefix', style', failure :=
          ReadCounterField(line, startCountingFrom, startAtPage, prefix, style, emitted);
      } else if startAtPage.Some? && startCountingFrom.Some? {
        EmitCounter(startCountingFrom.value, startAtPage.value, style, Some(prefix), values, stops, emitted);
        emitted' := emitted + [CounterValue(startCountingFrom.value, startAtPage.value, style, Some(prefix))];
      } else {
        failure := Some(MissingField);
      }
    }

    /** Line i of the scanning loop, continuing the run over the lines before it. */
    method ScanCounterLineAt(lines: seq<string>, i: nat, startCountingFrom: Option<int>, startAtPage: Option<int>, prefix: string, style: Style,
                             ghost values: seq<CounterValue>, ghost stops: seq<Option<int>>, ghost emitted: seq<CounterValue>)
      returns (startCountingFrom': Option<int>, startAtPage': Option<int>, prefix': string, style': Style,
               failure: Option<Error>, ghost emitted': seq<CounterValue>)
      requires i < |lines| && Distinct(counters)
      requires Values(counters) == values + emitted && Stops(counters) == stops + Nones(|emitted|)
      requires RunCounters(CounterScanStart, lines[..i]) == CounterScan(startCountingFrom, startAtPage, prefix, style, emitted, None)
      modifies this
      ensures Distinct(counters)
      ensures fresh(set c | c in counters && c !in old(counters))
      ensures RunCounters(CounterScanStart, lines[..i + 1]) ==
        CounterScan(startCountingFrom', startAtPage', prefix', style', emitted', failure)
      ensures Values(counters) == values + emitted' && Stops(counters) == stops + Nones(|emitted'|)
      ensures labelList == old(labelList) && bookmarks == old(bookmarks)
    {
      CounterRunNext(lines, i);
      startCountingFrom', startAtPage', prefix', style', failure, emitted' :=
        ScanCounterLine(lines[i], startCountingFrom, startAtPage, prefix, style, values, stops, emitted);
    }

    /** The scanning part of `_create_counters_from_pdf_metadatas` (bookmarks.py:266-321). */
    method ScanCountersInto(pdfMetadatas: seq<string>) returns (failure: Option<Error>)
      requires Distinct(counters)
      modifies this
      ensures Distinct(counters)
      ensures fresh(set c | c in counters && c !in old(counters))
      ensures failure == ScanCounters(pdfMetadatas).failure
      ensures Values(counters) == old(Values(counters)) + ScanCounters(pdfMetadatas).emitted
      ensures Stops(counters) == old(Stops(counters)) + Nones(|ScanCounters(pdfMetadatas).emitted|)
      ensures labelList == old(labelList) && bookmarks == old(bookmarks)
    {
      var normalized := Normalize(SubRange(pdfMetadatas, "PageLabel"), CounterDelimiter);
      if normalized.Err? {
        assert Stops(counters) == old(Stops(counters)) + Nones(0);
        return Some(normalized.error);
      }
      failure := ScanCounterLines(normalized.value);
    }

    /** The loop over the normalized page-label lines, appending a counter at each delimiter. */
    method ScanCounterLines(lines: seq<string>) returns (failure: Option<Error>)
      requires Distinct(counters)
      modifies this
      ensures Distinct(counters)
      ensures fresh(set c | c in counters && c !in old(counters))
      ensures failure == RunCounters(CounterScanStart, lines).failure
      ensures Values(counters) == old(Values(counters)) + RunCounters(CounterScanStart, lines).emitted
      ensures Stops(counters) == old(Stops(counters)) + Nones(|RunCounters(CounterScanStart, lines).emitted|)
      ensures labelList == old(labelList) && bookmarks == old(bookmarks)
    {
      var startCountingFrom: Option<int>, startAtPage: Option<int>, prefix, style := None, None, "", NoNumber;
      ghost var emitted: seq<CounterValue> := [];
      var i := 0;
      while i < |lines|
        invariant 0 <= i <= |lines|
        invariant Distinct(counters)
        invariant fresh(set c | c in counters && c !in old(counters))
        invariant RunCounters(CounterScanStart, lines[..i]) ==
          CounterScan(startCountingFrom, startAtPage, prefix, style, emitted, None)
        invariant Values(counters) == old(Values(counters)) + emitted
        invariant Stops(counters) == old(Stops(counters)) + Nones(|emitted|)
        invariant labelList == old(labelList) && bookmarks == old(bookmarks)
      {
        var lineFailure;
        startCountingFrom, startAtPage, prefix, style, lineFailure, emitted :=
          ScanCounterLineAt(lines, i, startCountingFrom, startAtPage, prefix, style, old(Values(counters)), old(Stops(counters)), emitted);
        if lineFailure.Some? {
          CounterRunFailed(lines, i);
          return lineFailure;
        }
        i := i + 1;
      }
      assert lines[..|lines|] == lines;
      return None;
    }

    /**
      `parse_pdf_metadatas`: the bookmarks, then the counters of the dump. An empty dump is
      refused unless an override is given; the override itself is never read.
     */
    method ParsePdfMetadatas(metadatasOverride: Option<seq<string>>) returns (failure: Option<Error>)
      requires Distinct(counters)
      modifies this, counters
      ensures Distinct(counters)
      ensures |metadatas| == 0 && metadatasOverride.None? ==>
        && failure == Some(EmptyMetadata) && bookmarks == old(bookmarks) && Values(counters) == old(Values(counters))
        && labelList == old(labelList) && Stops(counters) == old(Stops(counters))
      ensures !(|metadatas| == 0 && metadatasOverride.None?) ==>
        bookmarks == old(bookmarks) + ScanBookmarks(metadatas).emitted
      ensures !(|metadatas| == 0 && metadatasOverride.None?) && ScanBookmarks(metadatas).failure.Some? ==>
        && failure == ScanBookmarks(metadatas).failure && Values(counters) == old(Values(counters))
        && labelList == old(labelList) && Stops(counters) == old(Stops(counters))
      ensures !(|metadatas| == 0 && metadatasOverride.None?) && ScanBookmarks(metadatas).failure.None? ==>
        && Values(counters) == CreateCounters(old(Values(counters)), metadatas, pageAmount).0
        && labelList == old(labelList) + CreateCounters(old(Values(counters)), metadatas, pageAmount).1.labels
        && failure == CreateCounters(old(Values(counters)), metadatas, pageAmount).1.failure
        && var scan := ScanCounters(metadatas);
           var stops := old(Stops(counters)) + Nones(|scan.emitted|);
           if scan.failure.Some? then Stops(counters) == stops
           else Stops(counters) == DerivedStops(Values(counters), pageAmount, StopsBefore(stops, old(Values(counters)) + scan.emitted))
    {
      if |metadatas| == 0 && metadatasOverride.None? {
        return Some(EmptyMetadata);
      }
      failure := CreateBookmarksFromPdfMetadatas(metadatas);
      if failure.Some? {
        return;
      }
      failure := CreateCountersFromPdfMetadatas(metadatas);
    }

    /** `_forward_parse_counters`: a block of five lines per counter, numbered from 0. */
    method ForwardParseCounters() returns (lines: seq<string>)
      ensures lines == CounterBlocks(Values(counters))
    {
      ghost var vs := Values(counters);
      lines := [];
      var i := 0;
      while i < |counters|
        invariant 0 <= i <= |counters|
        invariant lines == CounterBlocks(vs[..i])
      {
        ValuesAt(counters, i);
        CounterBlocksNext(vs, i);
        lines := lines + CounterBlock(i, counters[i].Value());
        i := i + 1;
      }
      assert vs[..i] == vs;
    }

    /**
      `_forward_parse_bookmarks`: one indented line per bookmark with its page's label; a page
      outside the label list stops at that bookmark.
     */
    method ForwardParseBookmarks() returns (lines: seq<string>, failure: Option<Error>)
      ensures failure.None? <==> BookmarkMdLines(bookmarks, labelList).Ok?
      ensures failure.None? ==> lines == BookmarkMdLines(bookmarks, labelList).value
      ensures failure.Some? ==> failure == Some(BookmarkMdLines(bookmarks, labelList).error)
    {
      lines := [];
      var i := 0;
      while i < |bookmarks|
        invariant 0 <= i <= |bookmarks|
        invariant BookmarkMdLines(bookmarks[..i], labelList) == Ok(lines)
      {
        var b := bookmarks[i];
        BookmarkMdLinesNext(bookmarks, labelList, i);
        var pageLabel := PyIndex(labelList, b.pageNumber - 1);
        if pageLabel.None? {
          BookmarkMdLinesFailed(bookmarks, labelList, i);
          return lines, Some(IndexOutOfRange(b.pageNumber - 1));
        }
        lines := lines + [BookmarkMdLine(b, pageLabel.value)];
        i := i + 1;
      }
      assert bookmarks[..i] == bookmarks;
      return lines, None;
    }

    /** `output_to_md`: the header, the counter blocks, the bookmark header and the bookmark lines. */
    method OutputToMd() returns (lines: seq<string>, failure: Option<Error>)
      ensures failure.None? <==> MdLines(pageAmount, Values(counters), bookmarks, labelList).Ok?
      ensures failure.None? ==> lines == MdLines(pageAmount, Values(counters), bookmarks, labelList).value
      ensures failure.Some? ==> failure == Some(MdLines(pageAmount, Values(counters), bookmarks, labelList).error)
    {
      var counterLines := ForwardParseCounters();
      var bookmarkLines;
      bookmarkLines, failure := ForwardParseBookmarks();
      lines := MdHeader(pageAmount) + counterLines + ["# Bookmarks", ""] + bookmarkLines;
    }
  }

  /** One non-delimiter line of the bookmark scanner, on its accumulators. */
  method ReadBookmarkField(line: string, title: string, level: Option<int>, page: Option<int>, kind: FieldKind,
                           ghost emitted: seq<Bookmark>)
    returns (title': string, level': Option<int>, page': Option<int>, kind': FieldKind, failure: Option<Error>)
    requires line != BookmarkDelimiter
    ensures BookmarkStep(BookmarkScan(title, level, page, kind, emitted, None), line) ==
      BookmarkScan(title', level', page', kind', emitted, failure)
  {
    title', level', page', kind', failure := title, level, page, kind, None;
    var fields := SplitOnce(line, ": ");
    if |fields| == 1 {
      if kind == TitleField {
        title' := title + " " + fields[0];
      } else {
        failure := Some(UnrecognizedLine(line));
      }
    } else if fields[0] == "BookmarkTitle" {
      title', kind' := fields[1], TitleField;
    } else if fields[0] == "BookmarkLevel" {
      var v := ParseInt(fields[1]);
      if v.None? {
        failure := Some(NotANumber(fields[1]));
      } else {
        level', kind' := v, LevelField;
      }
    } else if fields[0] == "BookmarkPageNumber" {
      var v := ParseInt(fields[1]);
      if v.None? {
        failure := Some(NotANumber(fields[1]));
      } else {
        page', kind' := v, PageNumberField;
      }
    }
  }

  /** One non-delimiter line of the page-label scanner, on its accumulators. */
  method ReadCounterField(line: string, startCountingFrom: Option<int>, startAtPage: Option<int>, prefix: string, style: Style,
                          ghost emitted: seq<CounterValue>)
    returns (startCountingFrom': Option<int>, startAtPage': Option<int>, prefix': string, style': Style, failure: Option<Error>)
    requires line != CounterDelimiter
    ensures CounterStep(CounterScan(startCountingFrom, startAtPage, prefix, style, emitted, None), line) ==
      CounterScan(startCountingFrom', startAtPage', prefix', style', emitted, failure)
  {
    startCountingFrom', startAtPage', prefix', style', failure := startCountingFrom, startAtPage, prefix, style, None;
    var fields := SplitOnce(line, ": ");
    if |fields| == 2 && fields[0] == "PageLabelNewIndex" {
      var v := ParseInt(fields[1]);
      if v.None? {
        failure := Some(NotANumber(fields[1]));
      } else {
        startAtPage' := v;
      }
    } else if |fields| == 2 && fields[0] == "PageLabelStart" {
      var v := ParseInt(fields[1]);
      if v.None? {
        failure := Some(NotANumber(fields[1]));
      } else {
        startCountingFrom' := v;
      }
    } else if |fields| == 2 && fields[0] == "PageLabelPrefix" {
      prefix' := fields[1];
    } else if |fields| == 2 && fields[0] == "PageLabelNumStyle" {
      var s := ParseStyle(fields[1]);
      if s.None? {
        failure := Some(UnknownStyle(fields[1]));
      } else {
        style' := s.value;
      }
    } else {
      failure := Some(UnrecognizedLine(line));
    }
  }

  lemma AppendAssociates(a: seq<string>, b: seq<string>, c: seq<string>)
    ensures a + b + c == a + (b + c)
  {
  }

  /** When span i fails, the counters up to i have their stops and the later ones keep theirs. */
  lemma StopsAtFailure(vs: seq<CounterValue>, pageAmount: int, before: seq<Option<int>>, i: nat)
    requires i < |vs| == |before|
    requires DeriveUpTo(vs, pageAmount, i).failure.None?
    requires DeriveUpTo(vs, pageAmount, i + 1).failure.Some?
    ensures DeriveLabels(vs, pageAmount) == DeriveUpTo(vs, pageAmount, i + 1)
    ensures StopsThrough(vs, before, i + 1) == DerivedStops(vs, pageAmount, before)
  {
    DeriveFailureSticks(vs, pageAmount, i + 1, |vs|);
    forall j | 0 <= j < |vs| ensures StopsThrough(vs, before, i + 1)[j] == DerivedStops(vs, pageAmount, before)[j] {
      StopAtFailure(vs, pageAmount, before, i, j);
    }
  }

  lemma StopAtFailure(vs: seq<CounterValue>, pageAmount: int, before: seq<Option<int>>, i: nat, j: nat)
    requires i < |vs| == |before| && j < |vs|
    requires DeriveUpTo(vs, pageAmount, i).failure.None?
    requires DeriveUpTo(vs, pageAmount, i + 1).failure.Some?
    ensures StopsThrough(vs, before, i + 1)[j] == DerivedStops(vs, pageAmount, before)[j]
  {
    if j <= i {
      DeriveUpToPrefix(vs, pageAmount, j, i);
    } else {
      DeriveFailureSticks(vs, pageAmount, i + 1, j);
    }
  }

  lemma StopsAtStart(vs: seq<CounterValue>, before: seq<Option<int>>)
    requires |vs| == |before|
    ensures StopsThrough(vs, before, 0) == before
  {
  }

  /** When every span succeeds, every non-last counter has its stop. */
  lemma StopsAtEnd(vs: seq<CounterValue>, pageAmount: int, before: seq<Option<int>>)
    requires |vs| == |before|
    requires DeriveLabels(vs, pageAmount).failure.None?
    ensures StopsThrough(vs, before, |vs|) == DerivedStops(vs, pageAmount, before)
  {
    forall j | 0 <= j < |vs| ensures StopsThrough(vs, before, |vs|)[j] == DerivedStops(vs, pageAmount, before)[j] {
      DeriveUpToPrefix(vs, pageAmount, j, |vs|);
    }
  }
}
