/**
  The record scanners of bookmarks.py over the metadata dump: locating the bookmark and
  page-label lines, normalising their delimiters, and the two field-accumulating state
  machines, written as a step function folded over the lines.
 */
module RawScan {
  import opened Results
  import opened Text
  import opened Numerals
  import opened Records

  // ---------------------------------------------------------------------------
  // Locating the lines of one record kind

  /** Python's `flags.index(True)`, with None where it raises. */
  function FirstTrue(flags: seq<bool>): (r: Option<nat>)
    ensures r.Some? ==> r.value < |flags| && flags[r.value]
    ensures r.Some? ==> forall j :: 0 <= j < r.value ==> !flags[j]
    ensures r.None? ==> forall j :: 0 <= j < |flags| ==> !flags[j]
  {
    if |flags| == 0 then None
    else if flags[0] then Some(0)
    else match FirstTrue(flags[1..])
      case None => None
      case Some(k) => Some(k + 1)
  }

  /** `len(flags) - flags[::-1].index(True)`: one past the last true flag, None where `.index` raises. */
  function EndAfterLastTrue(flags: seq<bool>): (r: Option<nat>)
    ensures r.Some? ==> 0 < r.value <= |flags| && flags[r.value - 1]
    ensures r.Some? ==> forall j :: r.value <= j < |flags| ==> !flags[j]
    ensures r.None? ==> forall j :: 0 <= j < |flags| ==> !flags[j]
  {
    var reversed := Reverse(flags);
    match FirstTrue(reversed)
    case None =>
      assert forall j :: 0 <= j < |flags| ==> !flags[j] by {
        forall j | 0 <= j < |flags| ensures !flags[j] {
          assert reversed[|flags| - 1 - j] == flags[j];
        }
      }
      None
    case Some(back) =>
      assert forall j :: |flags| - back <= j < |flags| ==> !flags[j] by {
        forall j | |flags| - back <= j < |flags| ensures !flags[j] {
          assert reversed[|flags| - 1 - j] == flags[j];
        }
      }
      Some(|flags| - back)
  }

  /** No line contains the target. */
  predicate NoLineContains(lines: seq<string>, target: string) {
    forall i :: 0 <= i < |lines| ==> !Contains(lines[i], target)
  }

  /**
    Lines start to end - 1 span every line containing the target: the first and the last
    line of the span contain it, and no line outside the span does.
   */
  predicate IsTargetRange(lines: seq<string>, target: string, start: nat, end: nat) {
    && start < end <= |lines|
    && Contains(lines[start], target) && Contains(lines[end - 1], target)
    && (forall i :: 0 <= i < start ==> !Contains(lines[i], target))
    && (forall i :: end <= i < |lines| ==> !Contains(lines[i], target))
  }

  /**
    The first and the last line containing the target, found through the flags: both searches
    fail together, exactly when no line contains it, and otherwise they bound every such line.
   */
  lemma FlagsRange(lines: seq<string>, target: string)
    ensures var flags := ContainsFlags(lines, target);
      FirstTrue(flags).None? <==> EndAfterLastTrue(flags).None?
    ensures FirstTrue(ContainsFlags(lines, target)).None? <==> NoLineContains(lines, target)
    ensures var flags := ContainsFlags(lines, target);
      FirstTrue(flags).Some? ==> IsTargetRange(lines, target, FirstTrue(flags).value, EndAfterLastTrue(flags).value)
  {
    var flags := ContainsFlags(lines, target);
    var first, end := FirstTrue(flags), EndAfterLastTrue(flags);
    if first.Some? {
      assert flags[first.value];
      assert flags[end.value - 1];
      assert Contains(lines[first.value], target);
    } else {
      forall i | 0 <= i < |lines| ensures !Contains(lines[i], target) {
        assert !flags[i];
      }
    }
  }

  /** For each line, whether it contains the target: the list both range finders search. */
  function ContainsFlags(lines: seq<string>, target: string): (flags: seq<bool>)
    ensures |flags| == |lines|
    ensures forall i :: 0 <= i < |lines| ==> flags[i] == Contains(lines[i], target)
  {
    seq(|lines|, i requires 0 <= i < |lines| => Contains(lines[i], target))
  }

  /**
    `Metadata.find_text_range_in_list`: the first index of a line containing `target` and one
    past the last such index, or (None, None) when no line contains it.
   */
  function FindTextRangeInList(lines: seq<string>, target: string): (r: (Option<nat>, Option<nat>))
    ensures r.0.None? <==> r.1.None?
    ensures r.0.None? <==> NoLineContains(lines, target)
    ensures r.0.Some? ==> IsTargetRange(lines, target, r.0.value, r.1.value)
  {
    var flags := ContainsFlags(lines, target);
    var start, end := FirstTrue(flags), EndAfterLastTrue(flags);
    FlagsRange(lines, target);
    if start.None? || end.None? then (None, None)
    else (start, end)
  }

  /** `pdf_metadatas[start:end]` with the range found for `marker`; both None slice the whole list. */
  function SubRange(lines: seq<string>, marker: string): seq<string> {
    match FindTextRangeInList(lines, marker)
    case (Some(s), Some(e)) => lines[s..e]
    case _ => lines
  }

  /**
    Drops a leading delimiter and makes sure the lines end with one (bookmarks.py:218-222,
    274-278); the subscripts `[0]` and `[-1]` fail on an empty deque.
   */
  function Normalize(sub: seq<string>, delimiter: string): (r: Result<seq<string>>)
    ensures r.Err? <==> |sub| == 0 || (|sub| == 1 && sub[0] == delimiter)
    ensures r.Ok? ==> |r.value| > 0 && r.value[|r.value| - 1] == delimiter
    ensures r.Ok? ==>
      var core := if sub[0] == delimiter then sub[1..] else sub;
      r.value == core || r.value == core + [delimiter]
  {
    if |sub| == 0 then Err(IndexOutOfRange(0))
    else
      var core := if sub[0] == delimiter then sub[1..] else sub;
      if |core| == 0 then Err(IndexOutOfRange(-1))
      else if core[|core| - 1] != delimiter then Ok(core + [delimiter])
      else Ok(core)
  }

  // ---------------------------------------------------------------------------
  // The bookmark scanner (bookmarks.py:224-264)

  /** Which field the scanner saw last: `current_type` 0, 1 and 2. */
  datatype FieldKind = TitleField | LevelField | PageNumberField

  /** The scanner's accumulators, the bookmarks emitted so far, and the error that stopped it. */
  datatype BookmarkScan = BookmarkScan(
    title: string, level: Option<int>, page: Option<int>, kind: FieldKind,
    emitted: seq<Bookmark>, failure: Option<Error>)

  /** Before the first line: level and page start as 0, not None. */
  const BookmarkScanStart := BookmarkScan("", Some(0), Some(0), TitleField, [], None)

  const BookmarkDelimiter := "BookmarkBegin"

  /** One line of the bookmark scanner. */
  function BookmarkStep(s: BookmarkScan, line: string): BookmarkScan {
    if s.failure.Some? then s
    else if line != BookmarkDelimiter then
      var fields := SplitOnce(line, ": ");
      if |fields| == 1 then
        if s.kind == TitleField then s.(title := s.title + " " + fields[0])
        else s.(failure := Some(UnrecognizedLine(line)))
      else if fields[0] == "BookmarkTitle" then s.(title := fields[1], kind := TitleField)
      else if fields[0] == "BookmarkLevel" then
        match ParseInt(fields[1])
        case None => s.(failure := Some(NotANumber(fields[1])))
        case Some(v) => s.(level := Some(v), kind := LevelField)
      else if fields[0] == "BookmarkPageNumber" then
        match ParseInt(fields[1])
        case None => s.(failure := Some(NotANumber(fields[1])))
        case Some(v) => s.(page := Some(v), kind := PageNumberField)
      else s
    else if s.level.Some? && s.page.Some? then
      s.(emitted := s.emitted + [Bookmark(s.title, s.level.value, s.page.value)],
         title := "", level := None, page := None)
    else s.(failure := Some(MissingField))
  }

  /** The bookmark scanner run over `lines` from state `s`. */
  function RunBookmarks(s: BookmarkScan, lines: seq<string>): BookmarkScan {
    if |lines| == 0 then s
    else BookmarkStep(RunBookmarks(s, lines[..|lines| - 1]), lines[|lines| - 1])
  }

  /** `_create_bookmarks_from_pdf_metadatas` as a value: the bookmarks found and the error, if any. */
  function ScanBookmarks(pdfMetadatas: seq<string>): BookmarkScan {
    match Normalize(SubRange(pdfMetadatas, "Bookmark"), BookmarkDelimiter)
    case Err(e) => BookmarkScanStart.(failure := Some(e))
    case Ok(lines) => RunBookmarks(BookmarkScanStart, lines)
  }

  lemma {:induction false} RunBookmarksAppend(s: BookmarkScan, a: seq<string>, b: seq<string>)
    ensures RunBookmarks(s, a + b) == RunBookmarks(RunBookmarks(s, a), b)
    decreases |b|
  {
    if |b| == 0 {
      assert a + b == a;
    } else {
      assert (a + b)[..|a + b| - 1] == a + b[..|b| - 1];
      RunBookmarksAppend(s, a, b[..|b| - 1]);
    }
  }

  /** Once the scanner has failed, further lines change nothing. */
  lemma {:induction false} BookmarkFailureSticks(s: BookmarkScan, lines: seq<string>)
    requires s.failure.Some?
    ensures RunBookmarks(s, lines) == s
    decreases |lines|
  {
    if |lines| > 0 {
      BookmarkFailureSticks(s, lines[..|lines| - 1]);
    }
  }

  /** One step emits one bookmark on a delimiter and none otherwise, keeping what was emitted. */
  lemma BookmarkStepEmits(s: BookmarkScan, line: string)
    requires BookmarkStep(s, line).failure.None?
    ensures s.failure.None?
    ensures BookmarkStep(s, line).emitted[..|s.emitted|] == s.emitted
    ensures |BookmarkStep(s, line).emitted| == |s.emitted| + (if line == BookmarkDelimiter then 1 else 0)
  {
  }

  /**
    Without an error, the scanner emits exactly one bookmark per delimiter line, appending
    to what was emitted before.
   */
  lemma {:induction false} BookmarkPerDelimiter(s: BookmarkScan, lines: seq<string>)
    requires RunBookmarks(s, lines).failure.None?
    ensures s.failure.None?
    ensures |RunBookmarks(s, lines).emitted| == |s.emitted| + Count(lines, BookmarkDelimiter)
    ensures RunBookmarks(s, lines).emitted[..|s.emitted|] == s.emitted
    decreases |lines|
  {
    if |lines| > 0 {
      var init := lines[..|lines| - 1];
      BookmarkStepEmits(RunBookmarks(s, init), lines[|lines| - 1]);
      BookmarkPerDelimiter(s, init);
    }
  }

  /** A line without `": "` that is not the delimiter. */
  predicate IsHeaderless(line: string) {
    line != BookmarkDelimiter && !Contains(line, ": ")
  }

  /** The text header-less lines add to a title: each one, preceded by a space. */
  function Continuation(lines: seq<string>): string {
    if |lines| == 0 then "" else Continuation(lines[..|lines| - 1]) + " " + lines[|lines| - 1]
  }

  /**
    While the last field seen is the title, header-less lines are appended to the title,
    each after a space, and nothing else changes.
   */
  lemma {:induction false} TitleContinues(s: BookmarkScan, lines: seq<string>)
    requires s.failure.None? && s.kind == TitleField
    requires forall i :: 0 <= i < |lines| ==> IsHeaderless(lines[i])
    ensures RunBookmarks(s, lines) == s.(title := s.title + Continuation(lines))
    decreases |lines|
  {
    if |lines| > 0 {
      TitleContinues(s, lines[..|lines| - 1]);
      assert SplitOnce(lines[|lines| - 1], ": ") == [lines[|lines| - 1]];
    } else {
      assert s.title + "" == s.title;
    }
  }

  /** After a level or page-number field, a header-less line is an error. */
  lemma HeaderlessAfterNumberFails(s: BookmarkScan, line: string)
    requires s.failure.None? && s.kind != TitleField
    requires IsHeaderless(line)
    ensures BookmarkStep(s, line).failure == Some(UnrecognizedLine(line))
    ensures BookmarkStep(s, line).emitted == s.emitted
  {
  }

  /** A `key: value` line whose key is none of the three bookmark fields is ignored. */
  lemma UnknownBookmarkKeyIgnored(s: BookmarkScan, key: string, value: string)
    requires s.failure.None?
    requires forall k :: 0 <= k < |key| ==> key[k] != ':'
    requires key != "BookmarkTitle" && key != "BookmarkLevel" && key != "BookmarkPageNumber"
    ensures BookmarkStep(s, key + ": " + value) == s
  {
    var line := key + ": " + value;
    SplitAfterKey(key, value);
    NotDelimiter(key, value, BookmarkDelimiter);
    assert SplitOnce(line, ": ") == [key, value];
  }

  /** A `key: value` line is never one of the colon-free delimiters. */
  lemma NotDelimiter(key: string, value: string, delimiter: string)
    requires forall k :: 0 <= k < |key| ==> key[k] != ':'
    requires delimiter == BookmarkDelimiter || delimiter == CounterDelimiter
    ensures key + ": " + value != delimiter
  {
    var line := key + ": " + value;
    assert line[|key|] == ':';
    assert forall k :: 0 <= k < |delimiter| ==> delimiter[k] != ':';
  }

  /** A line that sets no bookmark level. */
  predicate SetsNoLevel(line: string) {
    var fields := SplitOnce(line, ": ");
    line != BookmarkDelimiter && (|fields| == 1 || fields[0] != "BookmarkLevel")
  }

  lemma {:induction false} LevelStaysMissing(s: BookmarkScan, lines: seq<string>)
    requires s.level.None?
    requires forall i :: 0 <= i < |lines| ==> SetsNoLevel(lines[i])
    ensures RunBookmarks(s, lines).level.None?
    decreases |lines|
  {
    if |lines| > 0 {
      LevelStaysMissing(s, lines[..|lines| - 1]);
    }
  }

  /**
    After a bookmark has been emitted the accumulators are reset, so a following record
    that gives no level ends in an error at its delimiter.
   */
  lemma MissingLevelAfterReset(s: BookmarkScan, fields: seq<string>)
    requires s.failure.None? && s.level.Some? && s.page.Some?
    requires forall i :: 0 <= i < |fields| ==> SetsNoLevel(fields[i])
    ensures RunBookmarks(s, [BookmarkDelimiter] + fields + [BookmarkDelimiter]).failure.Some?
  {
    var afterFirst := BookmarkStep(s, BookmarkDelimiter);
    assert RunBookmarks(s, [BookmarkDelimiter]) == afterFirst;
    assert afterFirst.level.None? && afterFirst.title == "";
    RunBookmarksAppend(s, [BookmarkDelimiter], fields);
    LevelStaysMissing(afterFirst, fields);
    RunBookmarksAppend(s, [BookmarkDelimiter] + fields, [BookmarkDelimiter]);
  }

  // ---------------------------------------------------------------------------
  // The page-label scanner (bookmarks.py:280-321)

  /** The scanner's accumulators (never reset), the counters emitted so far, and the error that stopped it. */
  datatype CounterScan = CounterScan(
    startCountingFrom: Option<int>, startAtPage: Option<int>, prefix: string, style: Style,
    emitted: seq<CounterValue>, failure: Option<Error>)

  const CounterScanStart := CounterScan(None, None, "", NoNumber, [], None)

  const CounterDelimiter := "PageLabelBegin"

  /** One line of the page-label scanner. */
  function CounterStep(s: CounterScan, line: string): CounterScan {
    if s.failure.Some? then s
    else if line != CounterDelimiter then
      var fields := SplitOnce(line, ": ");
      if |fields| == 2 && fields[0] == "PageLabelNewIndex" then
        match ParseInt(fields[1])
        case None => s.(failure := Some(NotANumber(fields[1])))
        case Some(v) => s.(startAtPage := Some(v))
      else if |fields| == 2 && fields[0] == "PageLabelStart" then
        match ParseInt(fields[1])
        case None => s.(failure := Some(NotANumber(fields[1])))
        case Some(v) => s.(startCountingFrom := Some(v))
      else if |fields| == 2 && fields[0] == "PageLabelPrefix" then s.(prefix := fields[1])
      else if |fields| == 2 && fields[0] == "PageLabelNumStyle" then
        match ParseStyle(fields[1])
        case None => s.(failure := Some(UnknownStyle(fields[1])))
        case Some(style) => s.(style := style)
      else s.(failure := Some(UnrecognizedLine(line)))
    else if s.startAtPage.Some? && s.startCountingFrom.Some? then
      s.(emitted := s.emitted + [CounterValue(s.startCountingFrom.value, s.startAtPage.value, s.style, Some(s.prefix))])
    else s.(failure := Some(MissingField))
  }

  function RunCounters(s: CounterScan, lines: seq<string>): CounterScan {
    if |lines| == 0 then s
    else CounterStep(RunCounters(s, lines[..|lines| - 1]), lines[|lines| - 1])
  }

  /** `_create_counters_from_pdf_metadatas` up to the call of `_check_and_update_counter`. */
  function ScanCounters(pdfMetadatas: seq<string>): CounterScan {
    match Normalize(SubRange(pdfMetadatas, "PageLabel"), CounterDelimiter)
    case Err(e) => CounterScanStart.(failure := Some(e))
    case Ok(lines) => RunCounters(CounterScanStart, lines)
  }

  lemma {:induction false} RunCountersAppend(s: CounterScan, a: seq<string>, b: seq<string>)
    ensures RunCounters(s, a + b) == RunCounters(RunCounters(s, a), b)
    decreases |b|
  {
    if |b| == 0 {
      assert a + b == a;
    } else {
      assert (a + b)[..|a + b| - 1] == a + b[..|b| - 1];
      RunCountersAppend(s, a, b[..|b| - 1]);
    }
  }

  lemma {:induction false} CounterFailureSticks(s: CounterScan, lines: seq<string>)
    requires s.failure.Some?
    ensures RunCounters(s, lines) == s
    decreases |lines|
  {
    if |lines| > 0 {
      CounterFailureSticks(s, lines[..|lines| - 1]);
    }
  }

  lemma CounterStepEmits(s: CounterScan, line: string)
    requires CounterStep(s, line).failure.None?
    ensures s.failure.None?
    ensures CounterStep(s, line).emitted[..|s.emitted|] == s.emitted
    ensures |CounterStep(s, line).emitted| == |s.emitted| + (if line == CounterDelimiter then 1 else 0)
  {
  }

  /** Without an error, exactly one counter is emitted per delimiter line. */
  lemma {:induction false} CounterPerDelimiter(s: CounterScan, lines: seq<string>)
    requires RunCounters(s, lines).failure.None?
    ensures s.failure.None?
    ensures |RunCounters(s, lines).emitted| == |s.emitted| + Count(lines, CounterDelimiter)
    ensures RunCounters(s, lines).emitted[..|s.emitted|] == s.emitted
    decreases |lines|
  {
    if |lines| > 0 {
      var init := lines[..|lines| - 1];
      CounterStepEmits(RunCounters(s, init), lines[|lines| - 1]);
      CounterPerDelimiter(s, init);
    }
  }

  /** Only the four page-label keys are accepted: any other non-delimiter line is an error. */
  lemma OtherCounterLineFails(s: CounterScan, line: string)
    requires s.failure.None? && line != CounterDelimiter
    requires var fields := SplitOnce(line, ": ");
      |fields| == 1 || fields[0] !in {"PageLabelNewIndex", "PageLabelStart", "PageLabelPrefix", "PageLabelNumStyle"}
    ensures CounterStep(s, line).failure == Some(UnrecognizedLine(line))
  {
  }

  /** A style outside the six supported names is an error. */
  lemma UnknownStyleFails(s: CounterScan, name: string)
    requires s.failure.None?
    requires name !in CounterStyles
    ensures CounterStep(s, "PageLabelNumStyle: " + name).failure == Some(UnknownStyle(name))
  {
    var line := "PageLabelNumStyle" + ": " + name;
    assert "PageLabelNumStyle: " + name == line;
    SplitAfterKey("PageLabelNumStyle", name);
    NotDelimiter("PageLabelNumStyle", name, CounterDelimiter);
    assert SplitOnce(line, ": ") == ["PageLabelNumStyle", name];
    assert ParseStyle(name).None?;
  }

  /** A line that does not set the counter style. */
  predicate SetsNoStyle(line: string) {
    var fields := SplitOnce(line, ": ");
    |fields| == 1 || fields[0] != "PageLabelNumStyle"
  }

  lemma StyleStep(s: CounterScan, line: string)
    requires SetsNoStyle(line)
    ensures CounterStep(s, line).style == s.style
    ensures |CounterStep(s, line).emitted| >= |s.emitted|
    ensures CounterStep(s, line).emitted[..|s.emitted|] == s.emitted
    ensures forall i :: |s.emitted| <= i < |CounterStep(s, line).emitted| ==>
      CounterStep(s, line).emitted[i].style == s.style
  {
    if s.failure.None? {
      if line == CounterDelimiter {
        DelimiterStep(s);
      } else {
        FieldStep(s, line);
      }
    }
  }

  lemma DelimiterStep(s: CounterScan)
    requires s.failure.None?
    ensures CounterStep(s, CounterDelimiter).style == s.style
    ensures CounterStep(s, CounterDelimiter).emitted == s.emitted
      || CounterStep(s, CounterDelimiter).emitted == s.emitted + [CounterValue(s.startCountingFrom.value, s.startAtPage.value, s.style, Some(s.prefix))]
  {
  }

  lemma FieldStep(s: CounterScan, line: string)
    requires s.failure.None? && line != CounterDelimiter && SetsNoStyle(line)
    ensures CounterStep(s, line).style == s.style
    ensures CounterStep(s, line).emitted == s.emitted
  {
  }

  /**
    The accumulators are never reset: across lines that set no style, including delimiters,
    the style stays the same, and every counter emitted meanwhile inherits it.
   */
  lemma {:induction false} StyleInherited(s: CounterScan, lines: seq<string>)
    requires forall i :: 0 <= i < |lines| ==> SetsNoStyle(lines[i])
    ensures RunCounters(s, lines).style == s.style
    ensures |RunCounters(s, lines).emitted| >= |s.emitted|
    ensures forall i :: |s.emitted| <= i < |RunCounters(s, lines).emitted| ==>
      RunCounters(s, lines).emitted[i].style == s.style
    decreases |lines|
  {
    if |lines| > 0 {
      var init := lines[..|lines| - 1];
      StyleInherited(s, init);
      StyleStep(RunCounters(s, init), lines[|lines| - 1]);
    }
  }
}
