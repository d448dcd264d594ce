/** The two records of the metadata document: page-label counters and bookmarks (bookmarks.py). */
module Records {
  import opened Results
  import opened Text
  import opened Numerals

  /** What a counter holds apart from the derived `stop_at_page`. */
  datatype CounterValue = CounterValue(startCountingFrom: int, startAtPage: int, style: Style, prefix: Option<string>)

  /**
    `Counter`: one page-numbering range. Only `stop_at_page` is ever updated after
    construction, so the other attributes are constants and `Value()` reads nothing.
   */
  class Counter {
    const startCountingFrom: int
    const startAtPage: int
    const style: Style
    const prefix: Option<string>
    var stopAtPage: Option<int>

    constructor (startCountingFrom: int, startAtPage: int, style: Style, prefix: Option<string>, stopAtPage: Option<int>)
      ensures Value() == CounterValue(startCountingFrom, startAtPage, style, prefix)
      ensures this.stopAtPage == stopAtPage
    {
      this.startCountingFrom := startCountingFrom;
      this.startAtPage := startAtPage;
      this.style := style;
      this.prefix := prefix;
      this.stopAtPage := stopAtPage;
    }

    function Value(): CounterValue {
      CounterValue(startCountingFrom, startAtPage, style, prefix)
    }
  }

  /** The values of a sequence of counters. */
  function Values(cs: seq<Counter>): (vs: seq<CounterValue>)
    ensures |vs| == |cs|
  {
    if |cs| == 0 then [] else Values(cs[..|cs| - 1]) + [cs[|cs| - 1].Value()]
  }

  lemma {:induction false} ValuesAt(cs: seq<Counter>, i: nat)
    requires i < |cs|
    ensures Values(cs)[i] == cs[i].Value()
    decreases |cs|
  {
    if i < |cs| - 1 {
      ValuesAt(cs[..|cs| - 1], i);
    }
  }

  lemma ValuesAppend(cs: seq<Counter>, c: Counter)
    ensures Values(cs + [c]) == Values(cs) + [c.Value()]
  {
    assert (cs + [c])[..|cs|] == cs;
  }

  /** `Counter.__str__`: the three labelled lines describing a counter. */
  function CounterLines(c: CounterValue): seq<string> {
    [ StartAtPageKey + ": " + DecimalString(c.startAtPage),
      StartCountingFromKey + ": " + DecimalString(c.startCountingFrom),
      StyleKey + ": " + StyleName(c.style) ]
  }

  const StartAtPageKey := "- Start at absolute page"
  const StartCountingFromKey := "- Start counting from"
  const StyleKey := "- Style"

  /** A key of a `key: value` line: it holds no colon. */
  predicate IsKey(key: string) {
    forall k :: 0 <= k < |key| ==> key[k] != ':'
  }

  lemma CounterKeys()
    ensures IsKey(StartAtPageKey) && IsKey(StartCountingFromKey) && IsKey(StyleKey)
  {
  }

  /** A counter's three lines give back its page, its counting start and its style. */
  lemma CounterLinesReadBack(c: CounterValue)
    ensures var lines := CounterLines(c);
      && SplitOnce(lines[0], ": ") == [StartAtPageKey, DecimalString(c.startAtPage)]
      && SplitOnce(lines[1], ": ") == [StartCountingFromKey, DecimalString(c.startCountingFrom)]
      && SplitOnce(lines[2], ": ") == [StyleKey, StyleName(c.style)]
      && ParseInt(DecimalString(c.startAtPage)) == Some(c.startAtPage)
      && ParseInt(DecimalString(c.startCountingFrom)) == Some(c.startCountingFrom)
      && ParseStyle(StyleName(c.style)) == Some(c.style)
  {
    CounterKeys();
    SplitAfterKey(StartAtPageKey, DecimalString(c.startAtPage));
    SplitAfterKey(StartCountingFromKey, DecimalString(c.startCountingFrom));
    SplitAfterKey(StyleKey, StyleName(c.style));
    ParseDecimalString(c.startAtPage);
    ParseDecimalString(c.startCountingFrom);
    StyleNameRoundTrip(c.style);
  }

  /** `Bookmark`: an outline entry; never updated after construction. */
  datatype Bookmark = Bookmark(title: string, level: int, pageNumber: int)

  /** The indentation of a bookmark of `level`: four spaces per level below the top. */
  function Indent(level: int): string {
    Spaces(4 * (level - 1))
  }

  /** `Bookmark.__str__`: indented `- title page`. */
  function BookmarkString(b: Bookmark): string {
    Indent(b.level) + "- " + b.title + " " + DecimalString(b.pageNumber)
  }

  /**
    The level is recovered from an indented line by counting its leading whitespace,
    dividing by four and adding one, when the text after the indentation does not start
    with whitespace.
   */
  lemma IndentGivesLevel(level: int, rest: string)
    requires level >= 1
    requires |rest| > 0 && !IsSpace(rest[0])
    ensures LeadingSpaces(Indent(level) + rest) == 4 * (level - 1)
    ensures LeadingSpaces(Indent(level) + rest) / 4 + 1 == level
    ensures LStrip(Indent(level) + rest) == rest
  {
    var line := Indent(level) + rest;
    var n := 4 * (level - 1);
    assert |Indent(level)| == n;
    forall k | 0 <= k < n ensures IsSpace(line[k]) {
      assert line[k] == ' ';
    }
    assert line[n] == rest[0];
    LeadingSpacesIs(line, n);
    assert line[n..] == rest;
  }

  lemma {:induction false} LeadingSpacesIs(s: string, n: nat)
    requires n < |s|
    requires forall k :: 0 <= k < n ==> IsSpace(s[k])
    requires !IsSpace(s[n])
    ensures LeadingSpaces(s) == n
    decreases n
  {
    if n > 0 {
      LeadingSpacesIs(s[1..], n - 1);
    }
  }

  /** A line written by `Bookmark.__str__` gives its level back by its indentation. */
  lemma BookmarkStringLevel(b: Bookmark)
    requires b.level >= 1
    ensures LeadingSpaces(BookmarkString(b)) / 4 + 1 == b.level
  {
    var rest := "- " + b.title + " " + DecimalString(b.pageNumber);
    assert BookmarkString(b) == Indent(b.level) + rest;
    IndentGivesLevel(b.level, rest);
  }
}
