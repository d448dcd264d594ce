/**
  The per-page label list as the two scripts (forwardparsing.py and backwardparsing.py)
  derive it: counter i covers the 0-based pages from its own start page up to the next
  counter's start page (the last one up to the page amount), numbered from its counting start.
  Only the two Roman styles and DecimalArabicNumerals produce labels.
 */
module ScriptLabels {
  import opened Results
  import opened Numerals
  import opened Records
  import opened PageLabels

  /** A counter as the scripts keep it: 0-based start page, first counting value, style name. */
  datatype ScriptCounter = ScriptCounter(page: int, start: int, style: string)

  /** The styles the scripts render; every other style name yields no labels. */
  function ScriptStyle(name: string): Option<Style> {
    if name == "LowercaseRomanNumerals" then Some(LowercaseRomanNumerals)
    else if name == "UppercaseRomanNumerals" then Some(UppercaseRomanNumerals)
    else if name == "DecimalArabicNumerals" then Some(DecimalArabicNumerals)
    else None
  }

  /**
    Exactly the three names are rendered, each as the style of that name in bookmarks.py,
    one that produces labels.
   */
  lemma ScriptStyleNames(name: string)
    ensures ScriptStyle(name).Some? <==> name in ["LowercaseRomanNumerals", "UppercaseRomanNumerals", "DecimalArabicNumerals"]
    ensures ScriptStyle(name).Some? ==> StyleName(ScriptStyle(name).value) == name && HasLabels(ScriptStyle(name).value)
    ensures ScriptStyle(name).Some? ==> ParseStyle(name) == ScriptStyle(name)
  {
  }

  /** One past the last 0-based page of counter i: the next counter's page, or the page amount. */
  function PageEnd(cs: seq<ScriptCounter>, i: nat, pageAmount: int): int
    requires i < |cs|
  {
    if i + 1 < |cs| then cs[i + 1].page else pageAmount
  }

  /** The labels counter i adds: the numbers of `enumerate(range(page, end), start)` in its style. */
  function ScriptSpan(cs: seq<ScriptCounter>, i: nat, pageAmount: int): Result<seq<string>>
    requires i < |cs|
  {
    match ScriptStyle(cs[i].style)
    case None => Ok([])
    case Some(s) => SpanLabels(s, cs[i].start, PageEnd(cs, i, pageAmount) - cs[i].page)
  }

  /** The span of every counter, in counter order. */
  function ScriptSpans(cs: seq<ScriptCounter>, pageAmount: int): (spans: seq<Result<seq<string>>>)
    ensures |spans| == |cs|
    ensures forall i :: 0 <= i < |cs| ==> spans[i] == ScriptSpan(cs, i, pageAmount)
  {
    seq(|cs|, i requires 0 <= i < |cs| => ScriptSpan(cs, i, pageAmount))
  }

  /** The first k spans joined, or the error of the first span among them that failed. */
  function Joined(spans: seq<Result<seq<string>>>, k: nat): Result<seq<string>>
    requires k <= |spans|
  {
    if k == 0 then Ok([]) else Then(Joined(spans, k - 1), spans[k - 1])
  }

  /** The labels of the first k counters, or the error of the first span that cannot be rendered. */
  function ScriptLabelsUpTo(cs: seq<ScriptCounter>, pageAmount: int, k: nat): Result<seq<string>>
    requires k <= |cs|
  {
    Joined(ScriptSpans(cs, pageAmount), k)
  }

  /** The whole label list of the scripts. */
  function ScriptLabelList(cs: seq<ScriptCounter>, pageAmount: int): Result<seq<string>> {
    ScriptLabelsUpTo(cs, pageAmount, |cs|)
  }

  /** A counter whose style is neither Roman nor decimal adds no label, whatever its pages. */
  lemma OtherStyleAddsNothing(cs: seq<ScriptCounter>, pageAmount: int, i: nat)
    requires i < |cs| && ScriptStyle(cs[i].style).None?
    ensures ScriptLabelsUpTo(cs, pageAmount, i + 1) == ScriptLabelsUpTo(cs, pageAmount, i)
  {
    if ScriptLabelsUpTo(cs, pageAmount, i).Ok? {
      assert ScriptLabelsUpTo(cs, pageAmount, i).value + [] == ScriptLabelsUpTo(cs, pageAmount, i).value;
    }
  }

  /** Once a span has failed, every longer derivation fails with the same error. */
  lemma {:induction false} ScriptLabelsFailed(cs: seq<ScriptCounter>, pageAmount: int, j: nat, k: nat)
    requires j <= k <= |cs|
    requires ScriptLabelsUpTo(cs, pageAmount, j).Err?
    ensures ScriptLabelsUpTo(cs, pageAmount, k) == ScriptLabelsUpTo(cs, pageAmount, j)
    decreases k
  {
    if j < k {
      ScriptLabelsFailed(cs, pageAmount, j, k - 1);
    }
  }

  // ---------------------------------------------------------------------------
  // Agreement with the label derivation of the Metadata class

  /** Every counter has a style the scripts render. */
  predicate AllRendered(cs: seq<ScriptCounter>) {
    forall i :: 0 <= i < |cs| ==> ScriptStyle(cs[i].style).Some?
  }

  /** The counters as bookmarks.py holds them: 1-based start page, no prefix. */
  function AsCounterValues(cs: seq<ScriptCounter>): (vs: seq<CounterValue>)
    requires AllRendered(cs)
    ensures |vs| == |cs|
  {
    seq(|cs|, i requires 0 <= i < |cs| => CounterValue(cs[i].start, cs[i].page + 1, ScriptStyle(cs[i].style).value, None))
  }

  /**
    When every style is rendered, the scripts derive the same labels as `_check_and_update_counter`
    does on the same counters (with 1-based pages), and fail with the same error.
   */
  lemma ScriptLabelsAgree(cs: seq<ScriptCounter>, pageAmount: int, k: nat)
    requires AllRendered(cs) && k <= |cs|
    ensures ScriptLabelsUpTo(cs, pageAmount, k) == Outcome(DeriveUpTo(AsCounterValues(cs), pageAmount, k))
  {
    var vs, spans := AsCounterValues(cs), ScriptSpans(cs, pageAmount);
    forall i | 0 <= i < |cs|
      ensures spans[i] == SpanLabels(vs[i].style, vs[i].startCountingFrom, SpanLength(vs, i, pageAmount))
    {
      SpanAgrees(cs, pageAmount, i);
    }
    JoinedAgrees(spans, vs, pageAmount, k);
  }

  /** Joining the spans of a derivation gives that derivation's outcome. */
  lemma {:induction false} JoinedAgrees(spans: seq<Result<seq<string>>>, vs: seq<CounterValue>, pageAmount: int, k: nat)
    requires |spans| == |vs| && k <= |vs|
    requires forall i :: 0 <= i < |vs| ==> spans[i] == SpanLabels(vs[i].style, vs[i].startCountingFrom, SpanLength(vs, i, pageAmount))
    ensures Joined(spans, k) == Outcome(DeriveUpTo(vs, pageAmount, k))
  {
    if k > 0 {
      JoinedAgrees(spans, vs, pageAmount, k - 1);
      DeriveUpToStep(vs, pageAmount, k);
      AgreeStep(Joined(spans, k - 1), DeriveUpTo(vs, pageAmount, k - 1), spans[k - 1],
        SpanLabels(vs[k - 1].style, vs[k - 1].startCountingFrom, SpanLength(vs, k - 1, pageAmount)));
    }
  }

  /** The derivation of k counters: that of the first k - 1, then the span of counter k - 1. */
  lemma DeriveUpToStep(vs: seq<CounterValue>, pageAmount: int, k: nat)
    requires 0 < k <= |vs|
    ensures DeriveUpTo(vs, pageAmount, k) ==
      Extend(DeriveUpTo(vs, pageAmount, k - 1), SpanLabels(vs[k - 1].style, vs[k - 1].startCountingFrom, SpanLength(vs, k - 1, pageAmount)))
  {
  }

  /** A derivation's outcome as the scripts report it: the labels, or the error that stopped it. */
  function Outcome(d: Derivation): Result<seq<string>> {
    if d.failure.None? then Ok(d.labels) else Err(d.failure.value)
  }

  /** Adding the same span to agreeing derivations keeps them in agreement. */
  lemma AgreeStep(prev: Result<seq<string>>, d: Derivation, span: Result<seq<string>>, sameSpan: Result<seq<string>>)
    requires prev == Outcome(d) && span == sameSpan
    ensures Then(prev, span) == Outcome(Extend(d, sameSpan))
  {
  }

  /** The scripts' labels so far, then one more span: the first error stops them. */
  function Then(prev: Result<seq<string>>, span: Result<seq<string>>): Result<seq<string>> {
    if prev.Err? then prev else if span.Err? then Err(span.error) else Ok(prev.value + span.value)
  }

  /** A derivation so far, then one more span: a failure stops it, keeping the labels so far. */
  function Extend(d: Derivation, span: Result<seq<string>>): Derivation {
    if d.failure.Some? then d else if span.Err? then Derivation(d.labels, Some(span.error)) else Derivation(d.labels + span.value, None)
  }


  /** Counter i's script span is its span in the Metadata class's derivation. */
  lemma SpanAgrees(cs: seq<ScriptCounter>, pageAmount: int, i: nat)
    requires AllRendered(cs) && i < |cs|
    ensures var vs := AsCounterValues(cs);
      ScriptSpan(cs, i, pageAmount) == SpanLabels(vs[i].style, vs[i].startCountingFrom, SpanLength(vs, i, pageAmount))
  {
    var vs := AsCounterValues(cs);
    assert vs[i] == CounterValue(cs[i].start, cs[i].page + 1, ScriptStyle(cs[i].style).value, None);
    assert i + 1 < |cs| ==> vs[i + 1] == CounterValue(cs[i + 1].start, cs[i + 1].page + 1, ScriptStyle(cs[i + 1].style).value, None);
    assert SpanLength(vs, i, pageAmount) == PageEnd(cs, i, pageAmount) - cs[i].page;
  }

  /**
    For rendered counters whose pages ascend from page 0, the scripts give one label per page,
    and 0-based page q of counter i's pages is labelled with counting value start_i + (q - page_i).
   */
  lemma ScriptLabelOfPage(cs: seq<ScriptCounter>, pageAmount: int, i: nat, q: int)
    requires AllRendered(cs) && Ascending(AsCounterValues(cs), pageAmount)
    requires ScriptLabelList(cs, pageAmount).Ok?
    requires i < |cs| && cs[i].page <= q < PageEnd(cs, i, pageAmount)
    ensures |ScriptLabelList(cs, pageAmount).value| == pageAmount
    ensures IsRoman(ScriptStyle(cs[i].style).value) ==> cs[i].start + (q - cs[i].page) >= 1
    ensures 0 <= q < pageAmount
    ensures ScriptLabelList(cs, pageAmount).value[q] ==
      LabelText(ScriptStyle(cs[i].style).value, cs[i].start + (q - cs[i].page))
  {
    var vs := AsCounterValues(cs);
    ScriptLabelsAgree(cs, pageAmount, |cs|);
    assert vs[i] == CounterValue(cs[i].start, cs[i].page + 1, ScriptStyle(cs[i].style).value, None);
    assert i + 1 < |cs| ==> vs[i + 1] == CounterValue(cs[i + 1].start, cs[i + 1].page + 1, ScriptStyle(cs[i + 1].style).value, None);
    LabelsCoverDocument(vs, pageAmount);
    LabelOfPage(vs, pageAmount, i, q + 1);
  }

  // ---------------------------------------------------------------------------
  // The derivation loop of the scripts

  /**
    forwardparsing.py:89-102 and backwardparsing.py:50-69: extend the label list span by span.
    The loop stops at the first span whose numeral cannot be written.
   */
  method DeriveScriptLabels(cs: seq<ScriptCounter>, pageAmount: int) returns (labels: seq<string>, failure: Option<Error>)
    ensures failure.None? <==> ScriptLabelList(cs, pageAmount).Ok?
    ensures failure.None? ==> labels == ScriptLabelList(cs, pageAmount).value
    ensures failure.Some? ==> failure.value == ScriptLabelList(cs, pageAmount).error
  {
    labels := [];
    var i := 0;
    while i < |cs|
      invariant 0 <= i <= |cs|
      invariant ScriptLabelsUpTo(cs, pageAmount, i) == Ok(labels)
    {
      var span := ScriptSpan(cs, i, pageAmount);
      if span.Err? {
        ScriptLabelsFailed(cs, pageAmount, i + 1, |cs|);
        return labels, Some(span.error);
      }
      labels := labels + span.value;
      i := i + 1;
    }
    return labels, None;
  }
}
