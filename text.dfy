/**
  The few pieces of Python's string and list behaviour the converter relies on:
  substring search, `split`, `join`, `lstrip`, `str(int)`, `int(str)`, case mapping,
  `' ' * n` and list subscripts with negative indices.
 */
module Text {
  import opened Results

  /** Python's str.isspace on ASCII: tab to carriage return, the separators 0x1C-0x1F, and the space. */
  predicate IsSpace(c: char) {
    '\t' <= c <= '\r' || '\U{1C}' <= c <= ' '
  }

  /** `pat` occurs in `s` starting at position `i`. */
  predicate OccursAt(s: string, pat: string, i: int) {
    0 <= i && i + |pat| <= |s| && s[i..i + |pat|] == pat
  }

  lemma OccursAtTail(s: string, pat: string, j: int)
    requires |s| > 0 && j >= 1
    ensures OccursAt(s, pat, j) <==> OccursAt(s[1..], pat, j - 1)
  {
    if j + |pat| <= |s| {
      assert s[1..][j - 1..j - 1 + |pat|] == s[j..j + |pat|];
    }
  }

  /** The first position of `pat` in `s` (Python's `str.find`, with None for -1). */
  function IndexOf(s: string, pat: string): (r: Option<nat>)
    ensures r.Some? ==> OccursAt(s, pat, r.value)
    ensures r.Some? ==> forall j :: 0 <= j < r.value ==> !OccursAt(s, pat, j)
    ensures r.None? ==> forall j :: !OccursAt(s, pat, j)
    decreases |s|
  {
    if |s| < |pat| then None
    else if s[..|pat|] == pat then Some(0)
    else
      var rest := IndexOf(s[1..], pat);
      assert !OccursAt(s, pat, 0);
      forall j | j >= 1 ensures OccursAt(s, pat, j) <==> OccursAt(s[1..], pat, j - 1) {
        OccursAtTail(s, pat, j);
      }
      match rest
      case None => None
      case Some(k) => Some(k + 1)
  }

  /** The first occurrence is determined by where `pat` occurs. */
  lemma IndexOfIs(s: string, pat: string, i: nat)
    requires OccursAt(s, pat, i)
    requires forall j :: 0 <= j < i ==> !OccursAt(s, pat, j)
    ensures IndexOf(s, pat) == Some(i)
  {
  }

  /** Python's `t in s` for strings. */
  predicate Contains(s: string, t: string) {
    IndexOf(s, t).Some?
  }

  /** `parts` joined with `sep` between consecutive parts (Python's `sep.join(parts)`). */
  function Join(parts: seq<string>, sep: string): string {
    if |parts| == 0 then ""
    else if |parts| == 1 then parts[0]
    else parts[0] + sep + Join(parts[1..], sep)
  }

  /** Python's `s.split(sep, maxsplit=1)`. */
  function SplitOnce(s: string, sep: string): (r: seq<string>)
    requires sep != ""
    ensures 1 <= |r| <= 2
    ensures |r| == 1 <==> !Contains(s, sep)
    ensures |r| == 1 ==> r[0] == s
    ensures Join(r, sep) == s
  {
    match IndexOf(s, sep)
    case None => [s]
    case Some(i) =>
      assert s == s[..i] + sep + s[i + |sep|..];
      [s[..i], s[i + |sep|..]]
  }

  /** Python's `s.split(sep)`. */
  function SplitAll(s: string, sep: string): (r: seq<string>)
    requires sep != ""
    ensures |r| >= 1
    ensures Join(r, sep) == s
    decreases |s|
  {
    match IndexOf(s, sep)
    case None => [s]
    case Some(i) =>
      var rest := SplitAll(s[i + |sep|..], sep);
      assert s == s[..i] + sep + s[i + |sep|..];
      [s[..i]] + rest
  }

  /** A line `key: value` whose key holds no colon is split right after the key. */
  lemma SplitAfterKey(key: string, value: string)
    requires forall k :: 0 <= k < |key| ==> key[k] != ':'
    ensures SplitOnce(key + ": " + value, ": ") == [key, value]
    ensures |SplitAll(key + ": " + value, ": ")| >= 2
    ensures SplitAll(key + ": " + value, ": ")[0] == key
    ensures SplitAll(key + ": " + value, ": ")[1] == SplitAll(value, ": ")[0]
    ensures SplitAll(key + ": " + value, ": ") == [key] + SplitAll(value, ": ")
  {
    var s := key + ": " + value;
    assert OccursAt(s, ": ", |key|) by { assert s[|key|..|key| + 2] == ": "; }
    forall j | 0 <= j < |key| ensures !OccursAt(s, ": ", j) {
      assert s[j] == key[j];
    }
    IndexOfIs(s, ": ", |key|);
    assert s[..|key|] == key;
    assert s[|key| + 2..] == value;
  }

  /** A string without a colon is not split at ": ". */
  lemma SplitNoColon(s: string)
    requires forall k :: 0 <= k < |s| ==> s[k] != ':'
    ensures !Contains(s, ": ")
    ensures SplitAll(s, ": ") == [s]
  {
    forall j | 0 <= j < |s| ensures !OccursAt(s, ": ", j) {
      if j + 2 <= |s| {
        assert s[j..j + 2][0] == s[j];
      }
    }
  }

  /** `str(n)` holds no colon. */
  lemma DecimalStringNoColon(n: int)
    ensures forall k :: 0 <= k < |DecimalString(n)| ==> DecimalString(n)[k] != ':'
  {
    if n < 0 {
      assert forall k :: 1 <= k < |DecimalString(n)| ==> DecimalString(n)[k] == NatString(-n)[k - 1];
    }
  }

  /** Number of leading whitespace characters (`len(takewhile(str.isspace, s))`). */
  function LeadingSpaces(s: string): (n: nat)
    ensures n <= |s|
    ensures forall k :: 0 <= k < n ==> IsSpace(s[k])
    ensures n < |s| ==> !IsSpace(s[n])
  {
    if |s| == 0 || !IsSpace(s[0]) then 0 else 1 + LeadingSpaces(s[1..])
  }

  /** Python's `s.lstrip()`. */
  function LStrip(s: string): string {
    s[LeadingSpaces(s)..]
  }

  /** Python's `s[k:]` for k >= 0. */
  function Drop(s: string, k: nat): string {
    if k >= |s| then "" else s[k..]
  }

  /** Python's `' ' * n`: empty when n <= 0. */
  function Spaces(n: int): (r: string)
    ensures |r| == if n <= 0 then 0 else n
    ensures forall k :: 0 <= k < |r| ==> r[k] == ' '
  {
    if n <= 0 then "" else seq(n, _ => ' ')
  }

  /** Python's `xs[i]` on a list: negative indices count from the end. */
  function PyIndex<T>(xs: seq<T>, i: int): (r: Option<T>)
    ensures r.Some? <==> -|xs| <= i < |xs|
    ensures 0 <= i < |xs| ==> r == Some(xs[i])
    ensures -|xs| <= i < 0 ==> r == Some(xs[|xs| + i])
  {
    if 0 <= i < |xs| then Some(xs[i])
    else if -|xs| <= i < 0 then Some(xs[|xs| + i])
    else None
  }

  predicate IsDigit(c: char) {
    '0' <= c <= '9'
  }

  function DigitChar(d: nat): (c: char)
    requires d < 10
    ensures IsDigit(c)
  {
    ('0' as int + d) as char
  }

  /** The decimal digits of `n`, most significant first, without leading zeros. */
  function NatString(n: nat): (r: string)
    ensures |r| >= 1
    ensures forall k :: 0 <= k < |r| ==> IsDigit(r[k])
  {
    if n < 10 then [DigitChar(n)] else NatString(n / 10) + [DigitChar(n % 10)]
  }

  /** Python's `str(n)` for an int. */
  function DecimalString(n: int): string {
    if n < 0 then "-" + NatString(-n) else NatString(n)
  }

  predicate IsDigitString(s: string) {
    |s| >= 1 && forall k :: 0 <= k < |s| ==> IsDigit(s[k])
  }

  /** The value of a string of decimal digits, read most significant first. */
  function DigitsValue(s: string): nat
    requires forall k :: 0 <= k < |s| ==> IsDigit(s[k])
  {
    if |s| == 0 then 0
    else
      assert IsDigit(s[|s| - 1]);
      DigitsValue(s[..|s| - 1]) * 10 + (s[|s| - 1] as int - '0' as int)
  }

  /** Python's `int(s)` on an optionally negative decimal digit string; None where Python raises. */
  function ParseInt(s: string): Option<int> {
    if |s| >= 1 && s[0] == '-' then
      if IsDigitString(s[1..]) then Some(0 - DigitsValue(s[1..])) else None
    else if IsDigitString(s) then Some(DigitsValue(s))
    else None
  }

  lemma {:induction false} NatStringValue(n: nat)
    ensures DigitsValue(NatString(n)) == n
  {
    if n >= 10 {
      NatStringValue(n / 10);
      var s := NatString(n);
      assert s[..|s| - 1] == NatString(n / 10);
    }
  }

  /** `int(str(n)) == n`. */
  lemma ParseDecimalString(n: int)
    ensures ParseInt(DecimalString(n)) == Some(n)
  {
    if n < 0 {
      NatStringValue(-n);
      assert DecimalString(n)[1..] == NatString(-n);
    } else {
      NatStringValue(n);
      assert !IsDigit('-');
    }
  }

  function LowerChar(c: char): char {
    if 'A' <= c <= 'Z' then (c as int + 32) as char else c
  }

  function UpperChar(c: char): char {
    if 'a' <= c <= 'z' then (c as int - 32) as char else c
  }

  /** Python's `s.lower()` on ASCII letters. */
  function Lower(s: string): (r: string)
    ensures |r| == |s|
  {
    seq(|s|, k requires 0 <= k < |s| => LowerChar(s[k]))
  }

  /** Python's `s.upper()` on ASCII letters. */
  function Upper(s: string): (r: string)
    ensures |r| == |s|
  {
    seq(|s|, k requires 0 <= k < |s| => UpperChar(s[k]))
  }

  /** How many elements of `xs` equal `x`. */
  function Count<T(==)>(xs: seq<T>, x: T): nat {
    if |xs| == 0 then 0
    else Count(xs[..|xs| - 1], x) + (if xs[|xs| - 1] == x then 1 else 0)
  }

  /** A sequence is its prefix of length k followed by the rest. */
  lemma SplitAt<T>(s: seq<T>, k: nat)
    requires k <= |s|
    ensures s == s[..k] + s[k..]
  {
  }

  lemma {:induction false} CountAppend<T>(a: seq<T>, b: seq<T>, x: T)
    ensures Count(a + b, x) == Count(a, x) + Count(b, x)
    decreases |b|
  {
    if |b| > 0 {
      CountAppend(a, b[..|b| - 1], x);
      assert (a + b)[..|a + b| - 1] == a + b[..|b| - 1];
    } else {
      assert a + b == a;
    }
  }

  /** The concatenation of a sequence of sequences. */
  function Flatten<T>(xss: seq<seq<T>>): seq<T> {
    if |xss| == 0 then [] else Flatten(xss[..|xss| - 1]) + xss[|xss| - 1]
  }

  /** In a concatenation of blocks of n elements each, block i lies at n * i. */
  lemma {:induction false} FlattenLayout<T>(xss: seq<seq<T>>, n: nat, i: nat)
    requires forall k :: 0 <= k < |xss| ==> |xss[k]| == n
    requires i < |xss|
    ensures |Flatten(xss)| == n * |xss|
    ensures n * i + n <= |Flatten(xss)|
    ensures Flatten(xss)[n * i..n * i + n] == xss[i]
    decreases |xss|
  {
    var m := |xss| - 1;
    var init, last := xss[..m], xss[m];
    assert forall k :: 0 <= k < |init| ==> |init[k]| == n by {
      forall k | 0 <= k < |init| ensures |init[k]| == n {
        assert init[k] == xss[k];
      }
    }
    var f := Flatten(init);
    assert Flatten(xss) == f + last;
    FlattenLength(init, n);
    MulSucc(n, m);
    MulSucc(n, i);
    if i < m {
      FlattenLayout(init, n, i);
      assert (f + last)[n * i..n * i + n] == f[n * i..n * i + n];
    } else {
      assert (f + last)[|f|..|f| + n] == last;
    }
  }

  /** Blocks of n elements each flatten to n elements per block. */
  lemma {:induction false} FlattenLength<T>(xss: seq<seq<T>>, n: nat)
    requires forall k :: 0 <= k < |xss| ==> |xss[k]| == n
    ensures |Flatten(xss)| == n * |xss|
    decreases |xss|
  {
    if |xss| > 0 {
      var m := |xss| - 1;
      var init := xss[..m];
      forall k | 0 <= k < |init| ensures |init[k]| == n {
        assert init[k] == xss[k];
      }
      FlattenLength(init, n);
      MulSucc(n, m);
    }
  }

  lemma MulSucc(n: nat, m: nat)
    ensures 0 <= n * m && n * (m + 1) == n * m + n
  {
  }

  /** What is still to be processed, put after what has been produced so far; an error stays as it is. */
  function After<T>(done: seq<T>, r: Result<seq<T>>): (a: Result<seq<T>>)
    ensures a.Ok? <==> r.Ok?
    ensures a.Ok? ==> |a.value| == |done| + |r.value|
    ensures a.Ok? ==> a.value[..|done|] == done && a.value[|done|..] == r.value
    ensures a.Err? ==> a == r
  {
    if r.Ok? then Ok(done + r.value) else r
  }

  lemma AfterAfter<T>(xs: seq<T>, ys: seq<T>, r: Result<seq<T>>)
    ensures After(xs, After(ys, r)) == After(xs + ys, r)
  {
    if r.Ok? {
      assert xs + (ys + r.value) == (xs + ys) + r.value;
    }
  }

  /**
    `for batch in itr.batched(lines, n)`, each batch converted by f, stopping at the first
    conversion that fails. Every batch has n lines except possibly the last.
   */
  function Batched<T>(lines: seq<string>, n: nat, f: seq<string> -> Result<T>): Result<seq<T>>
    requires n > 0
    decreases |lines|
  {
    if |lines| == 0 then Ok([])
    else
      var k := if |lines| < n then |lines| else n;
      var x :- f(lines[..k]);
      var rest :- Batched(lines[k..], n, f);
      Ok([x] + rest)
  }

  /** f refuses every batch that is not n lines long, as unpacking a batch into n names does. */
  ghost predicate Unpacks<T>(n: nat, f: seq<string> -> Result<T>) {
    forall batch: seq<string> :: f(batch).Ok? ==> |batch| == n
  }

  /** The next batch's conversion fails the whole run, or its value is followed by the rest. */
  lemma BatchedStep<T>(lines: seq<string>, n: nat, f: seq<string> -> Result<T>)
    requires n > 0 && |lines| > 0
    ensures var k := if |lines| < n then |lines| else n;
      Batched(lines, n, f) ==
        if f(lines[..k]).Err? then Err(f(lines[..k]).error) else After([f(lines[..k]).value], Batched(lines[k..], n, f))
  {
  }

  /** When every short batch is refused, a successful run has one value per n lines. */
  lemma {:induction false} BatchedLength<T>(lines: seq<string>, n: nat, f: seq<string> -> Result<T>)
    requires n > 0 && Unpacks(n, f) && Batched(lines, n, f).Ok?
    ensures n * |Batched(lines, n, f).value| == |lines|
    decreases |lines|
  {
    if |lines| > 0 {
      var k := if |lines| < n then |lines| else n;
      assert k == n;
      BatchedLength(lines[n..], n, f);
      MulSucc(n, |Batched(lines[n..], n, f).value|);
    }
  }

  /** When every short batch is refused, the k-th value of a successful run converts lines n k to n k + n - 1. */
  lemma {:induction false} BatchedAt<T>(lines: seq<string>, n: nat, f: seq<string> -> Result<T>, k: nat)
    requires n > 0 && Unpacks(n, f) && Batched(lines, n, f).Ok?
    requires k < |Batched(lines, n, f).value|
    ensures n * k + n <= |lines|
    ensures f(lines[n * k..n * k + n]) == Ok(Batched(lines, n, f).value[k])
    decreases |lines|
  {
    BatchedCons(lines, n, f);
    var rest := lines[n..];
    var v, w := Batched(lines, n, f).value, Batched(rest, n, f).value;
    if k > 0 {
      BatchedAt(rest, n, f, k - 1);
      var j := n * (k - 1);
      assert 0 <= j && n + j == n * k by {
        MulSucc(n, k - 1);
        assert k - 1 + 1 == k;
      }
      SliceOfSuffix(lines, n, j, n);
      assert v[k] == w[k - 1];
    } else {
      assert n * k == 0;
      assert lines[n * k..n * k + n] == lines[..n];
    }
  }

  /** A successful run over some lines starts with the value of its first n lines. */
  lemma BatchedCons<T>(lines: seq<string>, n: nat, f: seq<string> -> Result<T>)
    requires n > 0 && Unpacks(n, f) && Batched(lines, n, f).Ok? && |lines| > 0
    ensures n <= |lines| && f(lines[..n]).Ok? && Batched(lines[n..], n, f).Ok?
    ensures Batched(lines, n, f).value == [f(lines[..n]).value] + Batched(lines[n..], n, f).value
  {
    var b := if |lines| < n then |lines| else n;
    assert |lines[..b]| == n;
  }

  /** A slice of a suffix is a slice of the whole, shifted by where the suffix starts. */
  lemma SliceOfSuffix<T>(xs: seq<T>, a: nat, j: nat, len: nat)
    requires a + j + len <= |xs|
    ensures xs[a..][j..j + len] == xs[a + j..a + j + len]
  {
  }

  /** `[f(x) for x in lines]` where f may raise: the first element that fails stops the run. */
  function MapEach<T>(lines: seq<string>, f: string -> Result<T>): (r: Result<seq<T>>)
    ensures r.Ok? ==> |r.value| == |lines|
    ensures r.Ok? ==> forall k :: 0 <= k < |lines| ==> f(lines[k]) == Ok(r.value[k])
    ensures r.Err? ==> exists k :: 0 <= k < |lines| && f(lines[k]) == Err(r.error) && forall j :: 0 <= j < k ==> f(lines[j]).Ok?
  {
    if |lines| == 0 then Ok([])
    else
      var init := lines[..|lines| - 1];
      assert forall k :: 0 <= k < |init| ==> init[k] == lines[k];
      var xs :- MapEach(init, f);
      var x :- f(lines[|lines| - 1]);
      Ok(xs + [x])
  }

  /** One more element: the run so far is extended by its value, or fails with its error. */
  lemma MapEachNext<T>(lines: seq<string>, f: string -> Result<T>, i: nat)
    requires i < |lines| && MapEach(lines[..i], f).Ok?
    ensures MapEach(lines[..i + 1], f) ==
      if f(lines[i]).Err? then Err(f(lines[i]).error) else Ok(MapEach(lines[..i], f).value + [f(lines[i]).value])
  {
    assert lines[..i + 1][..i] == lines[..i];
  }

  /** Once the run over a prefix has failed, the run over the whole sequence fails the same way. */
  lemma {:induction false} MapEachFailed<T>(lines: seq<string>, f: string -> Result<T>, i: nat)
    requires i <= |lines| && MapEach(lines[..i], f).Err?
    ensures MapEach(lines, f) == MapEach(lines[..i], f)
    decreases |lines|
  {
    if i < |lines| {
      var init := lines[..|lines| - 1];
      assert init[..i] == lines[..i];
      MapEachFailed(init, f, i);
    } else {
      assert lines[..i] == lines;
    }
  }

  /** A line of text: no newline character in it. */
  predicate NoNewline(s: string) {
    forall k :: 0 <= k < |s| ==> s[k] != '\n'
  }

  /** Lines joined with newlines split back into the same lines. */
  lemma {:induction false} SplitJoinLines(parts: seq<string>)
    requires |parts| >= 1
    requires forall k :: 0 <= k < |parts| ==> NoNewline(parts[k])
    ensures SplitAll(Join(parts, "\n"), "\n") == parts
    decreases |parts|
  {
    var p := parts[0];
    assert NoNewline(p);
    if |parts| == 1 {
      NoNewlineNotFound(p);
    } else {
      var rest := parts[1..];
      assert Join(parts, "\n") == p + "\n" + Join(rest, "\n");
      NewlineAfterLine(p, Join(rest, "\n"));
      SplitJoinLines(rest);
    }
  }

  /** A line without a newline splits into itself. */
  lemma NoNewlineNotFound(p: string)
    requires NoNewline(p)
    ensures IndexOf(p, "\n").None?
  {
    forall j | 0 <= j < |p| ensures !OccursAt(p, "\n", j) {
      if j + 1 <= |p| {
        assert p[j..j + 1][0] == p[j];
      }
    }
  }

  /** In a line, a newline and a text, the first newline is the one after the line. */
  lemma NewlineAfterLine(p: string, t: string)
    requires NoNewline(p)
    ensures IndexOf(p + "\n" + t, "\n") == Some(|p|)
    ensures (p + "\n" + t)[..|p|] == p && (p + "\n" + t)[|p| + 1..] == t
  {
    var s := p + "\n" + t;
    forall j | 0 <= j < |p| ensures !OccursAt(s, "\n", j) {
      assert s[j..j + 1][0] == s[j] == p[j];
    }
    assert OccursAt(s, "\n", |p|) by {
      assert s[|p|..|p| + 1] == "\n";
    }
    IndexOfIs(s, "\n", |p|);
    assert s[..|p|] == p;
    assert s[|p| + 1..] == t;
  }

  /**
    Two joins written one after the other with nothing between them are one join in which
    the last part of the first list and the first part of the second are fused.
   */
  lemma {:induction false} JoinGlued(a: seq<string>, b: seq<string>, sep: string)
    requires |a| >= 1 && |b| >= 1
    ensures Join(a, sep) + Join(b, sep) == Join(a[..|a| - 1] + [a[|a| - 1] + b[0]] + b[1..], sep)
    decreases |a|
  {
    var glued := a[..|a| - 1] + [a[|a| - 1] + b[0]] + b[1..];
    if |a| == 1 {
      assert glued == [a[0] + b[0]] + b[1..];
      if |b| > 1 {
        assert glued[1..] == b[1..];
      }
    } else {
      var tail := a[1..];
      JoinGlued(tail, b, sep);
      var gluedTail := tail[..|tail| - 1] + [tail[|tail| - 1] + b[0]] + b[1..];
      assert glued == [a[0]] + gluedTail;
      assert glued[1..] == gluedTail;
    }
  }

  /** Flattening a list whose first block is x puts x in front. */
  lemma {:induction false} FlattenCons<T>(x: seq<T>, xss: seq<seq<T>>)
    ensures Flatten([x] + xss) == x + Flatten(xss)
    decreases |xss|
  {
    if |xss| == 0 {
      assert [x] + xss == [x];
      assert [x][..0] == [];
    } else {
      var init := xss[..|xss| - 1];
      FlattenCons(x, init);
      assert ([x] + xss)[..|xss|] == [x] + init;
    }
  }

  /** An element that is in no block is not in the concatenation. */
  lemma {:induction false} FlattenExcludes<T>(xss: seq<seq<T>>, x: T)
    requires forall k :: 0 <= k < |xss| ==> x !in xss[k]
    ensures x !in Flatten(xss)
    decreases |xss|
  {
    if |xss| > 0 {
      FlattenExcludes(xss[..|xss| - 1], x);
    }
  }

  /** Blocks of n lines, each converted by f, are converted batch by batch into the same values. */
  lemma {:induction false} BatchedFlatten<T>(xss: seq<seq<string>>, n: nat, f: seq<string> -> Result<T>, ys: seq<T>)
    requires n > 0 && |ys| == |xss|
    requires forall k :: 0 <= k < |xss| ==> |xss[k]| == n && f(xss[k]) == Ok(ys[k])
    ensures Batched(Flatten(xss), n, f) == Ok(ys)
    decreases |xss|
  {
    if |xss| == 0 {
    } else {
      FlattenCons(xss[0], xss[1..]);
      assert [xss[0]] + xss[1..] == xss;
      var lines := Flatten(xss);
      assert lines[..n] == xss[0];
      assert lines[n..] == Flatten(xss[1..]);
      BatchedFlatten(xss[1..], n, f, ys[1..]);
      assert ys == [ys[0]] + ys[1..];
    }
  }

  /** When every element converts, the run converts them all. */
  lemma {:induction false} MapEachOk<T>(lines: seq<string>, f: string -> Result<T>, values: seq<T>)
    requires |values| == |lines|
    requires forall k :: 0 <= k < |lines| ==> f(lines[k]) == Ok(values[k])
    ensures MapEach(lines, f) == Ok(values)
    decreases |lines|
  {
    if |lines| > 0 {
      var m := |lines| - 1;
      MapEachOk(lines[..m], f, values[..m]);
      assert values == values[..m] + [values[m]];
    }
  }
}
