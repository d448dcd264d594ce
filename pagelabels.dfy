/**
  The per-page label list derived from the counters (bookmarks.py `_check_and_update_counter`),
  and the default counter added when the first counter does not start at page 1.
 */
module PageLabels {
  import opened Results
  import opened Text
  import opened Numerals
  import opened Records

  /**
    The label of counting value `n` in `style`; "None" for NoNumber. Roman styles need n >= 1,
    which is where `roman.toRoman` raises otherwise.
   */
  function LabelText(style: Style, n: int): string
    requires IsRoman(style) ==> n >= 1
  {
    if HasLabels(style) then PageToLabel(style, n).value else "None"
  }

  /** The labels of `count` pages of a counter of `style` that counts from `from` (none when count <= 0). */
  function SpanLabels(style: Style, from: int, count: int): (r: Result<seq<string>>)
    ensures r.Err? <==> IsRoman(style) && count >= 1 && from <= 0
    ensures r.Ok? ==> |r.value| == (if count <= 0 then 0 else count)
    decreases count
  {
    if count <= 0 then Ok([])
    else
      var init :- SpanLabels(style, from, count - 1);
      if HasLabels(style) then
        var last :- PageToLabel(style, from + count - 1);
        Ok(init + [last])
      else Ok(init + ["None"])
  }

  /** The k-th label of a span is the label of counting value from + k. */
  lemma {:induction false} SpanLabelAt(style: Style, from: int, count: int, k: nat)
    requires SpanLabels(style, from, count).Ok? && k < |SpanLabels(style, from, count).value|
    ensures IsRoman(style) ==> from + k >= 1
    ensures SpanLabels(style, from, count).value[k] == LabelText(style, from + k)
    decreases count
  {
    SpanLabelsLast(style, from, count);
    var init := SpanLabels(style, from, count - 1).value;
    if k < count - 1 {
      SpanLabelAt(style, from, count - 1, k);
      assert (init + [LabelText(style, from + count - 1)])[k] == init[k];
    } else {
      assert k == count - 1;
    }
  }

  /** A rendered span of count pages is the span of count - 1 pages and the label of its last page. */
  lemma SpanLabelsLast(style: Style, from: int, count: int)
    requires SpanLabels(style, from, count).Ok? && count >= 1
    ensures SpanLabels(style, from, count - 1).Ok?
    ensures IsRoman(style) ==> from + count - 1 >= 1
    ensures SpanLabels(style, from, count).value ==
      SpanLabels(style, from, count - 1).value + [LabelText(style, from + count - 1)]
  {
  }

  /**
    How many pages counter i covers: up to the page before the next counter's start, and for
    the last counter up to the page amount.
   */
  function SpanLength(vs: seq<CounterValue>, i: nat, pageAmount: int): int
    requires i < |vs|
  {
    if i + 1 < |vs| then vs[i + 1].startAtPage - vs[i].startAtPage
    else pageAmount - vs[i].startAtPage + 1
  }

  /** The labels derived so far and the error that stopped the derivation, if any. */
  datatype Derivation = Derivation(labels: seq<string>, failure: Option<Error>)

  /** The labels of the first k counters' spans, in counter order. */
  function DeriveUpTo(vs: seq<CounterValue>, pageAmount: int, k: nat): Derivation
    requires k <= |vs|
  {
    if k == 0 then Derivation([], None)
    else
      var d := DeriveUpTo(vs, pageAmount, k - 1);
      if d.failure.Some? then d
      else match SpanLabels(vs[k - 1].style, vs[k - 1].startCountingFrom, SpanLength(vs, k - 1, pageAmount))
        case Err(e) => Derivation(d.labels, Some(e))
        case Ok(ls) => Derivation(d.labels + ls, None)
  }

  /** The whole label list of the counters `vs` for a document of `pageAmount` pages. */
  function DeriveLabels(vs: seq<CounterValue>, pageAmount: int): Derivation {
    DeriveUpTo(vs, pageAmount, |vs|)
  }

  /** Counter i's span cannot be rendered: a Roman counter counting from 0 or below. */
  predicate SpanFails(vs: seq<CounterValue>, pageAmount: int, i: nat)
    requires i < |vs|
  {
    IsRoman(vs[i].style) && SpanLength(vs, i, pageAmount) >= 1 && vs[i].startCountingFrom <= 0
  }

  /** Counter i's span extends a successful derivation of the first i spans, or stops it with the span's error. */
  lemma DeriveUpToNext(vs: seq<CounterValue>, pageAmount: int, i: nat)
    requires i < |vs|
    requires DeriveUpTo(vs, pageAmount, i).failure.None?
    ensures var span := SpanLabels(vs[i].style, vs[i].startCountingFrom, SpanLength(vs, i, pageAmount));
      DeriveUpTo(vs, pageAmount, i + 1) ==
        if span.Err? then Derivation(DeriveUpTo(vs, pageAmount, i).labels, Some(span.error))
        else Derivation(DeriveUpTo(vs, pageAmount, i).labels + span.value, None)
  {
  }

  /** The derivation of the first k spans fails exactly when one of them cannot be rendered. */
  lemma {:induction false} DeriveFailsIff(vs: seq<CounterValue>, pageAmount: int, k: nat)
    requires k <= |vs|
    ensures DeriveUpTo(vs, pageAmount, k).failure.Some? <==> exists i :: 0 <= i < k && SpanFails(vs, pageAmount, i)
  {
    if k > 0 {
      DeriveFailsIff(vs, pageAmount, k - 1);
      if DeriveUpTo(vs, pageAmount, k - 1).failure.Some? {
        var i :| 0 <= i < k - 1 && SpanFails(vs, pageAmount, i);
        assert 0 <= i < k && SpanFails(vs, pageAmount, i);
      } else if SpanFails(vs, pageAmount, k - 1) {
        assert 0 <= k - 1 < k && SpanFails(vs, pageAmount, k - 1);
      }
    }
  }

  /** A derivation that succeeds up to counter k extends the one up to counter k - 1 by span k - 1. */
  lemma DeriveUpToGrows(vs: seq<CounterValue>, pageAmount: int, k: nat)
    requires 1 <= k <= |vs|
    requires DeriveUpTo(vs, pageAmount, k).failure.None?
    ensures DeriveUpTo(vs, pageAmount, k - 1).failure.None?
    ensures SpanLabels(vs[k - 1].style, vs[k - 1].startCountingFrom, SpanLength(vs, k - 1, pageAmount)).Ok?
    ensures DeriveUpTo(vs, pageAmount, k).labels ==
      DeriveUpTo(vs, pageAmount, k - 1).labels + SpanLabels(vs[k - 1].style, vs[k - 1].startCountingFrom, SpanLength(vs, k - 1, pageAmount)).value
  {
  }

  /** A successful derivation keeps every shorter derivation as a prefix. */
  lemma {:induction false} DeriveUpToPrefix(vs: seq<CounterValue>, pageAmount: int, j: nat, k: nat)
    requires j <= k <= |vs|
    requires DeriveUpTo(vs, pageAmount, k).failure.None?
    ensures DeriveUpTo(vs, pageAmount, j).failure.None?
    ensures DeriveUpTo(vs, pageAmount, j).labels <= DeriveUpTo(vs, pageAmount, k).labels
    decreases k
  {
    if j < k {
      DeriveUpToGrows(vs, pageAmount, k);
      DeriveUpToPrefix(vs, pageAmount, j, k - 1);
    }
  }

  /** Counters that start at page 1, in ascending order, the last at most one past the page amount. */
  predicate Ascending(vs: seq<CounterValue>, pageAmount: int) {
    && |vs| >= 1
    && vs[0].startAtPage == 1
    && (forall i :: 0 <= i < |vs| - 1 ==> vs[i].startAtPage <= vs[i + 1].startAtPage)
    && vs[|vs| - 1].startAtPage <= pageAmount + 1
  }

  /** The page after the span of counter i. */
  function SpanEnd(vs: seq<CounterValue>, i: nat, pageAmount: int): int
    requires i < |vs|
  {
    if i + 1 < |vs| then vs[i + 1].startAtPage else pageAmount + 1
  }

  lemma {:induction false} AscendingStartsAtOne(vs: seq<CounterValue>, pageAmount: int, k: nat)
    requires Ascending(vs, pageAmount) && k < |vs|
    ensures 1 <= vs[k].startAtPage <= SpanEnd(vs, k, pageAmount)
  {
    if k > 0 {
      AscendingStartsAtOne(vs, pageAmount, k - 1);
    }
  }

  /** For ascending counters the first k spans label exactly the pages before counter k's span ends. */
  lemma {:induction false} DeriveUpToLength(vs: seq<CounterValue>, pageAmount: int, k: nat)
    requires Ascending(vs, pageAmount) && 1 <= k <= |vs|
    requires DeriveUpTo(vs, pageAmount, k).failure.None?
    ensures |DeriveUpTo(vs, pageAmount, k).labels| == SpanEnd(vs, k - 1, pageAmount) - 1
  {
    DeriveUpToGrows(vs, pageAmount, k);
    AscendingStartsAtOne(vs, pageAmount, k - 1);
    assert SpanLength(vs, k - 1, pageAmount) == SpanEnd(vs, k - 1, pageAmount) - vs[k - 1].startAtPage;
    if k > 1 {
      DeriveUpToLength(vs, pageAmount, k - 1);
    }
  }

  /**
    For counters that start at page 1 in ascending order, the label list has one label per
    page of the document.
   */
  lemma LabelsCoverDocument(vs: seq<CounterValue>, pageAmount: int)
    requires Ascending(vs, pageAmount)
    requires DeriveLabels(vs, pageAmount).failure.None?
    ensures |DeriveLabels(vs, pageAmount).labels| == pageAmount
  {
    DeriveUpToLength(vs, pageAmount, |vs|);
  }

  /**
    For counters that start at page 1 in ascending order, page p of counter i's span is
    labelled with counting value from_i + (p - start_i) in counter i's style.
   */
  lemma LabelOfPage(vs: seq<CounterValue>, pageAmount: int, i: nat, p: int)
    requires Ascending(vs, pageAmount)
    requires DeriveLabels(vs, pageAmount).failure.None?
    requires i < |vs| && vs[i].startAtPage <= p < SpanEnd(vs, i, pageAmount)
    ensures IsRoman(vs[i].style) ==> vs[i].startCountingFrom + (p - vs[i].startAtPage) >= 1
    ensures 1 <= p <= |DeriveLabels(vs, pageAmount).labels|
    ensures DeriveLabels(vs, pageAmount).labels[p - 1] ==
      LabelText(vs[i].style, vs[i].startCountingFrom + (p - vs[i].startAtPage))
  {
    SpanInLabels(vs, pageAmount, i);
    SpanLabelAt(vs[i].style, vs[i].startCountingFrom, SpanLength(vs, i, pageAmount), p - vs[i].startAtPage);
    IndexInPrefix(DeriveUpTo(vs, pageAmount, i).labels,
      SpanLabels(vs[i].style, vs[i].startCountingFrom, SpanLength(vs, i, pageAmount)).value,
      DeriveLabels(vs, pageAmount).labels, p - vs[i].startAtPage, p - 1);
  }

  /** For ascending counters, counter i's span is labelled right after the pages before its start. */
  lemma SpanInLabels(vs: seq<CounterValue>, pageAmount: int, i: nat)
    requires Ascending(vs, pageAmount)
    requires DeriveLabels(vs, pageAmount).failure.None?
    requires i < |vs|
    ensures SpanLength(vs, i, pageAmount) == SpanEnd(vs, i, pageAmount) - vs[i].startAtPage
    ensures |DeriveUpTo(vs, pageAmount, i).labels| == vs[i].startAtPage - 1
    ensures SpanLabels(vs[i].style, vs[i].startCountingFrom, SpanLength(vs, i, pageAmount)).Ok?
    ensures DeriveUpTo(vs, pageAmount, i).labels + SpanLabels(vs[i].style, vs[i].startCountingFrom, SpanLength(vs, i, pageAmount)).value
      <= DeriveLabels(vs, pageAmount).labels
  {
    DeriveUpToPrefix(vs, pageAmount, i + 1, |vs|);
    DeriveUpToGrows(vs, pageAmount, i + 1);
    AscendingStartsAtOne(vs, pageAmount, i);
    if i > 0 {
      DeriveUpToLength(vs, pageAmount, i);
    }
  }

  /** An index into the second part of a prefix of a sequence. */
  lemma IndexInPrefix<T>(prev: seq<T>, ls: seq<T>, whole: seq<T>, k: nat, j: int)
    requires prev + ls <= whole && k < |ls| && j == |prev| + k
    ensures 0 <= j < |whole| && whole[j] == ls[k]
  {
    assert whole[j] == (prev + ls)[j];
  }

  // ---------------------------------------------------------------------------
  // The default counter

  /** The counter added when page 1 is not covered: Roman capitals counting from 1 at page 1. */
  const DefaultCounter := CounterValue(1, 1, UppercaseRomanNumerals, None)

  /** bookmarks.py:326-336 as written: the default counter is appended after the existing ones. */
  function WithDefaultCounter(vs: seq<CounterValue>): seq<CounterValue>
    requires |vs| >= 1
  {
    if vs[0].startAtPage > 1 then vs + [DefaultCounter] else vs
  }

  /**
    As written, a document of ten pages whose only counter is decimal from page 5 gets ten
    Roman labels: the real counter's span runs backwards to the appended default counter's
    start and is empty, and the default counter's span covers the whole document.
   */
  lemma AppendedDefaultRelabelsDocument()
    ensures var d := DeriveLabels(WithDefaultCounter([CounterValue(1, 5, DecimalArabicNumerals, Some(""))]), 10);
      d.failure.None? && |d.labels| == 10 && d.labels[4] == "V"
  {
    var vs := [CounterValue(1, 5, DecimalArabicNumerals, Some(""))];
    var ws := WithDefaultCounter(vs);
    assert ws == [vs[0], DefaultCounter];
    assert SpanLength(ws, 0, 10) == -4;
    assert SpanLength(ws, 1, 10) == 10;
    assert DeriveUpTo(ws, 10, 0) == Derivation([], None);
    assert SpanLabels(DecimalArabicNumerals, 1, -4) == Ok([]);
    assert DeriveUpTo(ws, 10, 1) == Derivation([], None);
    var roman := SpanLabels(UppercaseRomanNumerals, 1, 10);
    assert roman.Ok? && |roman.value| == 10;
    SpanLabelAt(UppercaseRomanNumerals, 1, 10, 4);
    FiveIsV();
    assert DeriveLabels(ws, 10).labels == [] + roman.value;
  }

  /** Counters appended after the first k + 1 leave the spans of the first k unchanged. */
  lemma {:induction false} DeriveUpToExtend(vs: seq<CounterValue>, extra: seq<CounterValue>, pageAmount: int, k: nat)
    requires k < |vs|
    ensures DeriveUpTo(vs + extra, pageAmount, k) == DeriveUpTo(vs, pageAmount, k)
  {
    if k > 0 {
      DeriveUpToExtend(vs, extra, pageAmount, k - 1);
      assert (vs + extra)[k - 1] == vs[k - 1] && (vs + extra)[k] == vs[k];
    }
  }

  /**
    bookmarks.py:326-371 as written, for any counters whose first one starts after page 1
    and whose last one starts at page 1 or later: the default counter goes last; the last
    existing counter's span runs back to page 1 and labels nothing; the counters before it
    keep their spans; and the default counter then labels every page of the document I, II,
    III, ... after them. The derivation fails exactly when one of the earlier spans does.
   */
  lemma AppendedDefaultCounterLabels(vs: seq<CounterValue>, pageAmount: int)
    requires |vs| >= 1 && vs[0].startAtPage > 1 && vs[|vs| - 1].startAtPage >= 1
    ensures WithDefaultCounter(vs) == vs + [DefaultCounter]
    ensures SpanLength(WithDefaultCounter(vs), |vs| - 1, pageAmount) == 1 - vs[|vs| - 1].startAtPage
    ensures var d := DeriveLabels(WithDefaultCounter(vs), pageAmount);
      var front := DeriveUpTo(vs, pageAmount, |vs| - 1);
      && d.failure == front.failure
      && (front.failure.None? ==> RomanTail(d.labels, front.labels, pageAmount))
  {
    var ws := vs + [DefaultCounter];
    var n := |vs| - 1;
    DeriveUpToExtend(vs, [DefaultCounter], pageAmount, n);
    var front := DeriveUpTo(vs, pageAmount, n);
    if front.failure.None? {
      assert ws[n] == vs[n] && ws[n + 1] == DefaultCounter;
      DeriveUpToNext(ws, pageAmount, n);
      assert DeriveUpTo(ws, pageAmount, n + 1) == front;
      DeriveUpToNext(ws, pageAmount, n + 1);
      var roman := SpanLabels(UppercaseRomanNumerals, 1, pageAmount);
      assert DeriveLabels(ws, pageAmount).labels == front.labels + roman.value;
      forall k | 0 <= k < |roman.value|
        ensures roman.value[k] == ToRoman(k + 1).value
      {
        SpanLabelAt(UppercaseRomanNumerals, 1, pageAmount, k);
      }
    } else {
      assert DeriveUpTo(ws, pageAmount, n + 1) == front;
      assert DeriveUpTo(ws, pageAmount, n + 2) == front;
    }
  }

  /**
    `labels` is `front` followed by the upper-case Roman numerals of pages 1 to pageAmount
    (none when pageAmount <= 0).
   */
  predicate RomanTail(labels: seq<string>, front: seq<string>, pageAmount: int) {
    && |labels| == |front| + (if pageAmount <= 0 then 0 else pageAmount)
    && labels[..|front|] == front
    && forall k :: |front| <= k < |labels| ==> labels[k] == ToRoman(k - |front| + 1).value
  }

  /** Five in Roman numerals is "V". */
  lemma FiveIsV()
    ensures RomanFrom(5, 0) == "V"
  {
    assert RomanFrom(5, 10) == "V";
    assert RomanFrom(5, 9) == RomanFrom(5, 10);
    assert RomanFrom(5, 8) == RomanFrom(5, 9);
    assert RomanFrom(5, 7) == RomanFrom(5, 8);
    assert RomanFrom(5, 6) == RomanFrom(5, 7);
    assert RomanFrom(5, 5) == RomanFrom(5, 6);
    assert RomanFrom(5, 4) == RomanFrom(5, 5);
    assert RomanFrom(5, 3) == RomanFrom(5, 4);
    assert RomanFrom(5, 2) == RomanFrom(5, 3);
    assert RomanFrom(5, 1) == RomanFrom(5, 2);
    assert RomanFrom(5, 0) == RomanFrom(5, 1);
  }

  /** The evidently intended rule: the default counter is put in front of the existing ones. */
  function WithDefaultCounterFirst(vs: seq<CounterValue>): seq<CounterValue>
    requires |vs| >= 1
  {
    if vs[0].startAtPage > 1 then [DefaultCounter] + vs else vs
  }

  /** Ascending counters whose first one starts after page 1 and whose last starts at most one past the end. */
  predicate AscendingFromLater(vs: seq<CounterValue>, pageAmount: int) {
    && |vs| >= 1
    && vs[0].startAtPage > 1
    && (forall i :: 0 <= i < |vs| - 1 ==> vs[i].startAtPage <= vs[i + 1].startAtPage)
    && vs[|vs| - 1].startAtPage <= pageAmount + 1
  }

  lemma DefaultCounterFirstAscending(vs: seq<CounterValue>, pageAmount: int)
    requires AscendingFromLater(vs, pageAmount)
    ensures Ascending(WithDefaultCounterFirst(vs), pageAmount)
  {
    var ws := WithDefaultCounterFirst(vs);
    forall i | 0 <= i < |ws| - 1 ensures ws[i].startAtPage <= ws[i + 1].startAtPage {
      if i > 0 {
        assert ws[i] == vs[i - 1] && ws[i + 1] == vs[i];
      }
    }
  }

  /**
    With the default counter in front, the label list of ascending counters whose first one
    starts after page 1 has one label per page, and the pages before the first counter are
    labelled I, II, III, ...
   */
  lemma DefaultCounterFirstLabelsFrontPages(vs: seq<CounterValue>, pageAmount: int, p: int)
    requires AscendingFromLater(vs, pageAmount)
    requires DeriveLabels(WithDefaultCounterFirst(vs), pageAmount).failure.None?
    requires 1 <= p < vs[0].startAtPage && p <= pageAmount
    ensures |DeriveLabels(WithDefaultCounterFirst(vs), pageAmount).labels| == pageAmount
    ensures DeriveLabels(WithDefaultCounterFirst(vs), pageAmount).labels[p - 1] == ToRoman(p).value
  {
    var ws := WithDefaultCounterFirst(vs);
    assert Ascending(ws, pageAmount) && ws[0] == DefaultCounter && SpanEnd(ws, 0, pageAmount) == vs[0].startAtPage by {
      assert ws == [DefaultCounter] + vs;
      DefaultCounterFirstAscending(vs, pageAmount);
    }
    LabelsCoverDocument(ws, pageAmount);
    LabelOfPage(ws, pageAmount, 0, p);
    assert LabelText(UppercaseRomanNumerals, p) == ToRoman(p).value;
  }

  /** With the default counter in front, every page of an existing counter keeps that counter's label. */
  lemma DefaultCounterFirstKeepsLabels(vs: seq<CounterValue>, pageAmount: int, i: nat, p: int)
    requires AscendingFromLater(vs, pageAmount)
    requires DeriveLabels(WithDefaultCounterFirst(vs), pageAmount).failure.None?
    requires i < |vs| && vs[i].startAtPage <= p < SpanEnd(vs, i, pageAmount)
    ensures IsRoman(vs[i].style) ==> vs[i].startCountingFrom + (p - vs[i].startAtPage) >= 1
    ensures 1 <= p <= |DeriveLabels(WithDefaultCounterFirst(vs), pageAmount).labels|
    ensures DeriveLabels(WithDefaultCounterFirst(vs), pageAmount).labels[p - 1] ==
      LabelText(vs[i].style, vs[i].startCountingFrom + (p - vs[i].startAtPage))
  {
    DefaultCounterFirstShifts(vs, pageAmount, i);
    LabelOfPage(WithDefaultCounterFirst(vs), pageAmount, i + 1, p);
  }

  /** With the default counter in front, counter i becomes counter i + 1 and keeps its span. */
  lemma DefaultCounterFirstShifts(vs: seq<CounterValue>, pageAmount: int, i: nat)
    requires AscendingFromLater(vs, pageAmount) && i < |vs|
    ensures Ascending(WithDefaultCounterFirst(vs), pageAmount)
    ensures i + 1 < |WithDefaultCounterFirst(vs)| && WithDefaultCounterFirst(vs)[i + 1] == vs[i]
    ensures SpanEnd(WithDefaultCounterFirst(vs), i + 1, pageAmount) == SpanEnd(vs, i, pageAmount)
  {
    var ws := WithDefaultCounterFirst(vs);
    assert ws == [DefaultCounter] + vs;
    DefaultCounterFirstAscending(vs, pageAmount);
    if i + 1 < |vs| {
      assert ws[i + 2] == vs[i + 1];
    }
  }
}
