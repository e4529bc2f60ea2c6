/** The intent test of the chat send handler
    (forza-main/src/components/Chat/ChatInterface.tsx:242-250): two
    case-insensitive regular expressions, executed with `String.prototype.match`
    (first match, leftmost start), decide whether a message asks for a price
    chart or a technical analysis of a `$SYMBOL`.

      chart:    (?:show|display|get)\s+(?:me\s+)?\$([A-Za-z0-9]+)(?:\s+chart|\s+price)?
      analysis: (?:show|display|get)\s+(?:me\s+)?\$([A-Za-z0-9]+)(?:\s+technical\s+analysis|\s+analysis)

    The patterns are modelled twice: as a deterministic matcher that scans
    maximal runs (what a backtracking engine ends up doing on these patterns),
    and declaratively, as "some split of the text fits the pattern". The
    lemmas prove the two agree, that the capture is the longest possible, and
    that the analysis pattern never matches where the chart pattern does not.
    Under the `i` flag without `u`, case folding maps no non-ASCII character
    onto an ASCII one, so ASCII case folding is exact here. */
module ChatIntent {
  import opened Text
  import opened Options

  /** The lower-case literal `w` occurs case-insensitively at index `i`. */
  predicate WordAt(s: string, i: int, w: string) {
    0 <= i && i + |w| <= |s| && Lower(s[i..i + |w|]) == w
  }

  lemma WordAtFirst(s: string, i: int, w: string)
    requires WordAt(s, i, w) && |w| > 0
    ensures LowerChar(s[i]) == w[0]
  {
    assert Lower(s[i..i + |w|])[0] == LowerChar(s[i]);
  }

  /** End of the longest whitespace run that starts at `j` (what a greedy `\s*` consumes). */
  function SpaceRunEnd(s: string, j: nat): (e: nat)
    requires j <= |s|
    ensures j <= e <= |s|
    ensures forall k :: j <= k < e ==> IsSpace(s[k])
    ensures e == |s| || !IsSpace(s[e])
    decreases |s| - j
  {
    if j < |s| && IsSpace(s[j]) then SpaceRunEnd(s, j + 1) else j
  }

  /** End of the longest `[A-Za-z0-9]` run that starts at `j`. */
  function AlnumRunEnd(s: string, j: nat): (e: nat)
    requires j <= |s|
    ensures j <= e <= |s|
    ensures forall k :: j <= k < e ==> IsAsciiAlnum(s[k])
    ensures e == |s| || !IsAsciiAlnum(s[e])
    decreases |s| - j
  {
    if j < |s| && IsAsciiAlnum(s[j]) then AlnumRunEnd(s, j + 1) else j
  }

  /** `(?:show|display|get)` at `i`: the index just past the keyword. */
  function KeywordEnd(s: string, i: nat): (r: Option<nat>)
    ensures r.Some? <==> WordAt(s, i, "show") || WordAt(s, i, "display") || WordAt(s, i, "get")
    ensures r.Some? ==> i < r.value <= |s|
  {
    if WordAt(s, i, "show") then Some(i + 4)
    else if WordAt(s, i, "display") then Some(i + 7)
    else if WordAt(s, i, "get") then Some(i + 3)
    else None
  }

  /** `(?:show|display|get)\s+(?:me\s+)?\$` at `i`: the index of the `$`. */
  function DollarAfterKeyword(s: string, i: nat): (r: Option<nat>)
    ensures r.Some? ==> i < r.value < |s| && s[r.value] == '$'
  {
    match KeywordEnd(s, i)
    case None => None
    case Some(k) =>
      var j := SpaceRunEnd(s, k);
      if j == k then None
      else if j < |s| && s[j] == '$' then Some(j)
      else if WordAt(s, j, "me") then
        var m := SpaceRunEnd(s, j + 2);
        if m > j + 2 && m < |s| && s[m] == '$' then Some(m) else None
      else None
  }

  /** The span of a capture group: `s[start..end]`. */
  datatype Span = Span(start: nat, end: nat)

  /** The chart pattern tried at index `i`: the span of group 1, if it matches there. */
  function ChartCaptureAt(s: string, i: nat): (r: Option<Span>)
    ensures r.Some? ==> i < r.value.start < r.value.end <= |s|
  {
    CaptureAfterDollar(s, DollarAfterKeyword(s, i))
  }

  /** `([A-Za-z0-9]+)` right after the `$` found at `d`, if one was found. */
  function CaptureAfterDollar(s: string, d: Option<nat>): (r: Option<Span>)
    requires d.Some? ==> d.value < |s| && s[d.value] == '$'
    ensures r.Some? ==> d.Some? && r.value.start == d.value + 1 < r.value.end
    ensures r.Some? ==> DollarRun(s, r.value)
  {
    match d
    case None => None
    case Some(x) =>
      var e := AlnumRunEnd(s, x + 1);
      if e > x + 1 then Some(Span(x + 1, e)) else None
  }

  /** `sp` is the whole `[A-Za-z0-9]` run right after a `$` of `s`. */
  predicate DollarRun(s: string, sp: Span) {
    0 < sp.start < sp.end <= |s| && s[sp.start - 1] == '$' && sp.end == AlnumRunEnd(s, sp.start)
  }

  /** `(?:\s+technical\s+analysis|\s+analysis)` at `e`. */
  predicate AnalysisSuffixAt(s: string, e: nat)
    requires e <= |s|
  {
    var g := SpaceRunEnd(s, e);
    g > e &&
    (WordAt(s, g, "analysis") ||
     (WordAt(s, g, "technical") &&
      var h := SpaceRunEnd(s, g + 9);
      h > g + 9 && WordAt(s, h, "analysis")))
  }

  /** The analysis pattern tried at index `i`. */
  function AnalysisCaptureAt(s: string, i: nat): (r: Option<Span>)
    ensures r.Some? ==> ChartCaptureAt(s, i) == r
  {
    match ChartCaptureAt(s, i)
    case None => None
    case Some(sp) => if AnalysisSuffixAt(s, sp.end) then Some(sp) else None
  }

  datatype Pattern = ChartPattern | AnalysisPattern

  function CaptureAt(s: string, i: nat, p: Pattern): Option<Span> {
    match p
    case ChartPattern => ChartCaptureAt(s, i)
    case AnalysisPattern => AnalysisCaptureAt(s, i)
  }

  /** A successful `match`: where the match starts and what group 1 captured. */
  datatype Match = Match(start: nat, capture: Span)

  /** The first index at or after `from` where `xs` holds a value. */
  function FirstPresent<T>(xs: seq<Option<T>>, from: nat): (r: Option<nat>)
    requires from <= |xs|
    ensures r.None? ==> forall i :: from <= i < |xs| ==> xs[i].None?
    ensures r.Some? ==>
      from <= r.value < |xs| && xs[r.value].Some? && forall i :: from <= i < r.value ==> xs[i].None?
    decreases |xs| - from
  {
    if from == |xs| then None
    else if xs[from].Some? then Some(from)
    else FirstPresent(xs, from + 1)
  }

  /** The outcome of trying the pattern at every start index `0..|s|`. */
  function Attempts(s: string, p: Pattern): (r: seq<Option<Span>>)
    ensures |r| == |s| + 1
    ensures forall i :: 0 <= i <= |s| ==> r[i] == CaptureAt(s, i, p)
  {
    seq(|s| + 1, i requires 0 <= i <= |s| => CaptureAt(s, i, p))
  }

  /** `input.match(regex)` for the pattern `p`: the leftmost start index at
      which the pattern matches, and the capture of that match. */
  function Exec(s: string, p: Pattern): (r: Option<Match>)
    ensures r.None? ==> forall i :: 0 <= i <= |s| ==> CaptureAt(s, i, p).None?
    ensures r.Some? ==>
      && r.value.start <= |s|
      && CaptureAt(s, r.value.start, p) == Some(r.value.capture)
      && forall i :: 0 <= i < r.value.start ==> CaptureAt(s, i, p).None?
  {
    var tries := Attempts(s, p);
    match FirstPresent(tries, 0)
    case None => None
    case Some(k) => Some(Match(k, tries[k].value))
  }

  // ----- The patterns, declaratively -----------------------------------------

  /** `\s+` spans `s[a..b]`. */
  predicate SpacesSpan(s: string, a: int, b: int) {
    0 <= a < b <= |s| && forall k :: a <= k < b ==> IsSpace(s[k])
  }

  /** `[A-Za-z0-9]+` spans `s[a..b]`. */
  predicate AlnumSpan(s: string, a: int, b: int) {
    0 <= a < b <= |s| && forall k :: a <= k < b ==> IsAsciiAlnum(s[k])
  }

  /** `(?:show|display|get)` spans `s[i..a]`. */
  predicate KeywordSpan(s: string, i: int, a: int) {
    (a == i + 4 && WordAt(s, i, "show"))
    || (a == i + 7 && WordAt(s, i, "display"))
    || (a == i + 3 && WordAt(s, i, "get"))
  }

  /** `(?:me\s+)?` spans `s[b..c]`. */
  predicate OptMeSpan(s: string, b: int, c: int) {
    b == c || (WordAt(s, b, "me") && SpacesSpan(s, b + 2, c))
  }

  /** `(?:show|display|get)\s+(?:me\s+)?\$([A-Za-z0-9]+)` spans `s[i..e]`,
      with the keyword ending at `a`, the spaces at `b`, and the `$` at `c`. */
  predicate HeadSpan(s: string, i: int, a: int, b: int, c: int, e: int) {
    KeywordSpan(s, i, a) && SpacesSpan(s, a, b) && OptMeSpan(s, b, c)
    && 0 <= c < |s| && s[c] == '$' && AlnumSpan(s, c + 1, e)
  }

  /** `(?:\s+technical\s+analysis|\s+analysis)` spans `s[e..f]`. */
  ghost predicate AnalysisTail(s: string, e: int, f: int) {
    (exists g :: SpacesSpan(s, e, g) && WordAt(s, g, "analysis") && f == g + 8)
    || (exists g, h :: SpacesSpan(s, e, g) && WordAt(s, g, "technical")
                       && SpacesSpan(s, g + 9, h) && WordAt(s, h, "analysis") && f == h + 8)
  }

  /** The head of the chart regex matches `s[i..e]` with its `$` at `c`. */
  ghost predicate HeadMatches(s: string, i: int, c: int, e: int) {
    exists a, b :: HeadSpan(s, i, a, b, c, e)
  }

  /** The chart regex matches some text starting at `i` (its optional tail may be empty). */
  ghost predicate ChartMatchesAt(s: string, i: int) {
    exists a, b, c, e :: HeadSpan(s, i, a, b, c, e)
  }

  /** The analysis regex matches some text starting at `i`. */
  ghost predicate AnalysisMatchesAt(s: string, i: int) {
    exists a, b, c, e, f :: HeadSpan(s, i, a, b, c, e) && AnalysisTail(s, e, f)
  }

  // ----- Agreement -----------------------------------------------------------

  lemma SpaceRunEndIs(s: string, a: nat, b: nat)
    requires a <= b <= |s|
    requires forall k :: a <= k < b ==> IsSpace(s[k])
    requires b == |s| || !IsSpace(s[b])
    ensures SpaceRunEnd(s, a) == b
  {
    var r := SpaceRunEnd(s, a);
  }

  lemma AlnumRunEndAtLeast(s: string, a: nat, b: nat)
    requires a <= b <= |s|
    requires forall k :: a <= k < b ==> IsAsciiAlnum(s[k])
    ensures AlnumRunEnd(s, a) >= b
  {
    var r := AlnumRunEnd(s, a);
  }

  /** The matcher tried at `i` succeeds exactly when the chart regex matches
      text starting at `i`; its capture is the `[A-Za-z0-9]` run after the
      only possible `$`, taken as long as possible, as the greedy `+` does. */
  lemma {:induction false} ChartCaptureAtCorrect(s: string, i: nat)
    ensures ChartCaptureAt(s, i).Some? <==> ChartMatchesAt(s, i)
    ensures ChartCaptureAt(s, i).Some? ==>
      var sp := ChartCaptureAt(s, i).value;
      HeadMatches(s, i, sp.start - 1, sp.end) &&
      forall a, b, c, e :: HeadSpan(s, i, a, b, c, e) ==> c + 1 == sp.start && e <= sp.end
  {
    ChartCaptureComplete(s, i);
    if ChartCaptureAt(s, i).Some? {
      var sp := ChartCaptureAt(s, i).value;
      var a, b := ChartCaptureSound(s, i, sp);
      assert HeadMatches(s, i, sp.start - 1, sp.end);
    }
  }

  /** Every split that fits the chart regex at `i` is found by the matcher. */
  lemma ChartCaptureComplete(s: string, i: nat)
    ensures forall a, b, c, e :: HeadSpan(s, i, a, b, c, e) ==>
      ChartCaptureAt(s, i).Some? && c + 1 == ChartCaptureAt(s, i).value.start && e <= ChartCaptureAt(s, i).value.end
  {
    forall a, b, c, e | HeadSpan(s, i, a, b, c, e)
      ensures ChartCaptureAt(s, i).Some?
      ensures c + 1 == ChartCaptureAt(s, i).value.start && e <= ChartCaptureAt(s, i).value.end
    {
      HeadDetermined(s, i, a, b, c, e);
    }
  }

  /** What the chart matcher captures fits the chart regex, with the
      keyword ending at `a` and the spaces after it ending at `b`. */
  lemma ChartCaptureSound(s: string, i: nat, sp: Span) returns (a: int, b: int)
    requires ChartCaptureAt(s, i) == Some(sp)
    ensures HeadSpan(s, i, a, b, sp.start - 1, sp.end)
  {
    assert CaptureAfterDollar(s, DollarAfterKeyword(s, i)) == Some(sp);
    a := KeywordEnd(s, i).value;
    b := SpaceRunEnd(s, a);
    ChartCaptureAtShape(s, i, sp);
  }

  lemma KeywordDetermined(s: string, i: nat, a: int)
    requires KeywordSpan(s, i, a)
    ensures KeywordEnd(s, i) == Some(a)
  {
    if WordAt(s, i, "show") { WordAtFirst(s, i, "show"); }
    if WordAt(s, i, "display") { WordAtFirst(s, i, "display"); }
    if WordAt(s, i, "get") { WordAtFirst(s, i, "get"); }
  }

  lemma DollarDetermined(s: string, i: nat, a: nat, b: int, c: int)
    requires KeywordEnd(s, i) == Some(a)
    requires SpacesSpan(s, a, b) && OptMeSpan(s, b, c) && 0 <= c < |s| && s[c] == '$'
    ensures DollarAfterKeyword(s, i) == Some(c)
  {
    if b == c {
      SpaceRunEndIs(s, a, b);
    } else {
      WordAtFirst(s, b, "me");
      SpaceRunEndIs(s, a, b);
      SpaceRunEndIs(s, b + 2, c);
    }
  }

  /** Any split that fits the chart regex at `i` is the one the matcher finds. */
  lemma HeadDetermined(s: string, i: nat, a: int, b: int, c: int, e: int)
    requires HeadSpan(s, i, a, b, c, e)
    ensures ChartCaptureAt(s, i).Some?
    ensures ChartCaptureAt(s, i).value.start == c + 1
    ensures e <= ChartCaptureAt(s, i).value.end
  {
    KeywordDetermined(s, i, a);
    DollarDetermined(s, i, a, b, c);
    AlnumRunEndAtLeast(s, c + 1, e);
  }

  /** What the analysis matcher accepts fits the analysis regex. */
  lemma AnalysisCaptureSound(s: string, i: nat)
    requires AnalysisCaptureAt(s, i).Some?
    ensures AnalysisMatchesAt(s, i)
  {
    var sp := AnalysisCaptureAt(s, i).value;
    ChartCaptureAtCorrect(s, i);
    var a, b :| HeadSpan(s, i, a, b, sp.start - 1, sp.end);
    assert AnalysisSuffixAt(s, sp.end);
    var f := AnalysisSuffixSound(s, sp.end);
    assert HeadSpan(s, i, a, b, sp.start - 1, sp.end) && AnalysisTail(s, sp.end, f);
  }

  /** The suffix the analysis matcher checks fits the regex's tail. */
  lemma AnalysisSuffixSound(s: string, e: nat) returns (f: int)
    requires e <= |s| && AnalysisSuffixAt(s, e)
    ensures AnalysisTail(s, e, f)
  {
    var g := SpaceRunEnd(s, e);
    assert SpacesSpan(s, e, g);
    if WordAt(s, g, "analysis") {
      f := g + 8;
    } else {
      var h := SpaceRunEnd(s, g + 9);
      assert SpacesSpan(s, g + 9, h) && WordAt(s, h, "analysis");
      f := h + 8;
    }
  }

  lemma ShortTailDetermined(s: string, e: nat, g: int)
    requires e <= |s| && SpacesSpan(s, e, g) && WordAt(s, g, "analysis")
    ensures AnalysisSuffixAt(s, e)
  {
    WordAtFirst(s, g, "analysis");
    SpaceRunEndIs(s, e, g);
  }

  lemma LongTailDetermined(s: string, e: nat, g: int, h: int)
    requires e <= |s| && SpacesSpan(s, e, g) && WordAt(s, g, "technical")
    requires SpacesSpan(s, g + 9, h) && WordAt(s, h, "analysis")
    ensures AnalysisSuffixAt(s, e)
  {
    SpaceRunEndIs(s, e, g);
    SpaceRunEndIs(s, g + 9, h);
  }

  /** The tail of a split that fits the analysis regex is the one the matcher checks. */
  lemma AnalysisTailDetermined(s: string, e: nat, f: int)
    requires e <= |s| && AnalysisTail(s, e, f)
    ensures AnalysisSuffixAt(s, e)
  {
    if g :| SpacesSpan(s, e, g) && WordAt(s, g, "analysis") && f == g + 8 {
      ShortTailDetermined(s, e, g);
    } else {
      var g, h :| SpacesSpan(s, e, g) && WordAt(s, g, "technical")
                  && SpacesSpan(s, g + 9, h) && WordAt(s, h, "analysis") && f == h + 8;
      LongTailDetermined(s, e, g, h);
    }
  }

  /** Whatever fits the analysis regex at `i` is accepted by the analysis matcher. */
  lemma AnalysisCaptureComplete(s: string, i: nat)
    requires AnalysisMatchesAt(s, i)
    ensures AnalysisCaptureAt(s, i).Some?
  {
    var a, b, c, e, f :| HeadSpan(s, i, a, b, c, e) && AnalysisTail(s, e, f);
    HeadDetermined(s, i, a, b, c, e);
    var sp := ChartCaptureAt(s, i).value;
    // The run after `$` cannot continue into the whitespace that opens the tail.
    assert e == sp.end by {
      TailOpensWithSpace(s, e, f);
      ChartCaptureAtShape(s, i, sp);
    }
    AnalysisTailDetermined(s, e, f);
  }

  /** The tail of the analysis regex starts with whitespace. */
  lemma TailOpensWithSpace(s: string, e: int, f: int)
    requires AnalysisTail(s, e, f)
    ensures 0 <= e < |s| && IsSpace(s[e])
  {
  }

  /** The analysis matcher tried at `i` succeeds exactly when the analysis regex
      matches text starting at `i`. */
  lemma AnalysisCaptureAtCorrect(s: string, i: nat)
    ensures AnalysisCaptureAt(s, i).Some? <==> AnalysisMatchesAt(s, i)
  {
    if AnalysisCaptureAt(s, i).Some? { AnalysisCaptureSound(s, i); }
    if AnalysisMatchesAt(s, i) { AnalysisCaptureComplete(s, i); }
  }

  /** Whenever the analysis regex finds a match, the chart regex finds one that
      starts no later; so `chartMatch || analysisMatch` is always `chartMatch`. */
  lemma AnalysisMatchImpliesChartMatch(s: string)
    ensures Exec(s, AnalysisPattern).Some? ==>
      Exec(s, ChartPattern).Some? &&
      Exec(s, ChartPattern).value.start <= Exec(s, AnalysisPattern).value.start
  {
    if Exec(s, AnalysisPattern).Some? {
      var k := Exec(s, AnalysisPattern).value.start;
      assert CaptureAt(s, k, ChartPattern).Some?;
    }
  }

  /** `match` succeeds exactly when the pattern matches at some start index:
      there is no anchoring and no word boundary. */
  lemma ExecFindsAnyMatch(s: string, p: Pattern)
    ensures Exec(s, p).Some? <==> exists i :: 0 <= i <= |s| && CaptureAt(s, i, p).Some?
  {
    if Exec(s, p).Some? {
      assert CaptureAt(s, Exec(s, p).value.start, p).Some?;
    }
  }

  // ----- The decision taken by the send handler --------------------------------

  datatype Intent =
    | ChartRequest(symbol: string, isAnalysis: bool)
    | Conversation

  /** The branch decision of the send handler: the symbol is group 1 of
      `chartMatch || analysisMatch`, upper-cased, and `isAnalysis` is
      `!!analysisMatch`. Since an analysis match implies a chart match, the
      branch is decided by `chartMatch` alone. */
  function DetectIntent(input: string): (r: Intent)
    ensures r.ChartRequest? <==> Exec(input, ChartPattern).Some?
  {
    AnalysisMatchImpliesChartMatch(input);
    var chart := Exec(input, ChartPattern);
    var analysis := Exec(input, AnalysisPattern);
    if chart.Some? then
      var m := chart.value;
      ChartRequest(Upper(input[m.capture.start..m.capture.end]), analysis.Some?)
    else if analysis.Some? then
      // `chartMatch || analysisMatch` never falls through to `analysisMatch`.
      assert false; Conversation
    else
      Conversation
  }

  /** The chart branch is taken exactly when the chart regex matches somewhere
      in the input. */
  lemma DetectIntentBranch(input: string)
    ensures DetectIntent(input).ChartRequest? <==> exists i :: 0 <= i <= |input| && ChartMatchesAt(input, i)
  {
    AnalysisMatchImpliesChartMatch(input);
    if DetectIntent(input).ChartRequest? {
      var k := Exec(input, ChartPattern).value.start;
      ChartCaptureAtCorrect(input, k);
    }
    if i :| 0 <= i <= |input| && ChartMatchesAt(input, i) {
      ChartCaptureAtCorrect(input, i);
      assert CaptureAt(input, i, ChartPattern).Some?;
    }
  }

  /** On the chart branch, `isAnalysis` holds exactly when the analysis regex
      matches somewhere in the input. */
  lemma DetectIntentAnalysisFlag(input: string)
    requires DetectIntent(input).ChartRequest?
    ensures DetectIntent(input).isAnalysis <==> exists i :: 0 <= i <= |input| && AnalysisMatchesAt(input, i)
  {
    if DetectIntent(input).isAnalysis {
      var k := Exec(input, AnalysisPattern).value.start;
      AnalysisCaptureSound(input, k);
    }
    if i :| 0 <= i <= |input| && AnalysisMatchesAt(input, i) {
      AnalysisCaptureComplete(input, i);
      assert CaptureAt(input, i, AnalysisPattern).Some?;
    }
  }

  /** Upper-casing a run of `[A-Za-z0-9]` gives upper-case letters and digits. */
  lemma UpperOfAlnum(w: string)
    requires forall k :: 0 <= k < |w| ==> IsAsciiAlnum(w[k])
    ensures forall k :: 0 <= k < |Upper(w)| ==> IsAsciiDigit(Upper(w)[k]) || 'A' <= Upper(w)[k] <= 'Z'
  {
  }

  /** The leftmost chart match captures the whole `[A-Za-z0-9]` run that
      follows its `$`. */
  lemma ChartMatchCapture(s: string, m: Match)
    requires Exec(s, ChartPattern) == Some(m)
    ensures 0 < m.capture.start < m.capture.end <= |s|
    ensures m.capture.end == AlnumRunEnd(s, m.capture.start)
    ensures s[m.capture.start - 1] == '$'
  {
    assert CaptureAt(s, m.start, ChartPattern) == Some(m.capture);
    assert ChartCaptureAt(s, m.start) == Some(m.capture);
    ChartCaptureAtShape(s, m.start, m.capture);
  }

  /** A chart capture starts right after a `$` and runs to the end of the
      `[A-Za-z0-9]` run there. */
  lemma ChartCaptureAtShape(s: string, i: nat, sp: Span)
    requires ChartCaptureAt(s, i) == Some(sp)
    ensures DollarRun(s, sp)
  {
    assert ChartCaptureAt(s, i) == CaptureAfterDollar(s, DollarAfterKeyword(s, i));
  }

  /** On the chart branch the symbol is the upper-cased longest `[A-Za-z0-9]`
      run after the `$` of the leftmost chart match; so it is non-empty and
      made of upper-case letters and digits. */
  lemma DetectIntentSymbol(input: string)
    requires DetectIntent(input).ChartRequest?
    ensures Exec(input, ChartPattern).Some?
    ensures
      var sp := Exec(input, ChartPattern).value.capture;
      && DetectIntent(input).symbol == Upper(input[sp.start..sp.end])
      && sp.end == AlnumRunEnd(input, sp.start)
      && sp.start > 0 && input[sp.start - 1] == '$'
    ensures
      var sym := DetectIntent(input).symbol;
      |sym| > 0 && forall k :: 0 <= k < |sym| ==> IsAsciiDigit(sym[k]) || 'A' <= sym[k] <= 'Z'
  {
    AnalysisMatchImpliesChartMatch(input);
    var m := Exec(input, ChartPattern).value;
    ChartMatchCapture(input, m);
    assert DetectIntent(input).symbol == Upper(input[m.capture.start..m.capture.end]);
    var w := input[m.capture.start..m.capture.end];
    assert forall k :: 0 <= k < |w| ==> IsAsciiAlnum(w[k]);
    UpperOfAlnum(w);
  }

  /** The chart pattern matches "forget $BTC" at index 3, capturing "BTC". */
  lemma ForgetCapture()
    ensures ChartCaptureAt("forget $BTC", 3) == Some(Span(8, 11))
  {
    var s := "forget $BTC";
    assert WordAt(s, 3, "get");
    WordAtNot(s, 3, "show");
    WordAtNot(s, 3, "display");
    assert KeywordEnd(s, 3) == Some(6);
    assert SpaceRunEnd(s, 7) == 7;
    assert SpaceRunEnd(s, 6) == 7;
    assert DollarAfterKeyword(s, 3) == Some(7);
    assert AlnumRunEnd(s, 11) == 11;
    assert AlnumRunEnd(s, 8) == 11;
  }

  /** No keyword starts at a character other than s, d or g (in either case). */
  lemma NoKeywordAt(s: string, i: nat)
    requires i < |s| && LowerChar(s[i]) != 's' && LowerChar(s[i]) != 'd' && LowerChar(s[i]) != 'g'
    ensures KeywordEnd(s, i).None?
  {
    WordAtNot(s, i, "show");
    WordAtNot(s, i, "display");
    WordAtNot(s, i, "get");
  }

  /** The leftmost chart match in "forget $BTC" is the one at index 3. */
  lemma ForgetChartMatch(s: string)
    requires s == "forget $BTC"
    ensures Exec(s, ChartPattern).Some?
    ensures Exec(s, ChartPattern).value.capture == Span(8, 11)
  {
    ForgetCapture();
    forall i | 0 <= i < 3 ensures CaptureAt(s, i, ChartPattern).None? {
      NoKeywordAt(s, i);
    }
    ExecIs(s, ChartPattern, 3, Span(8, 11));
  }

  /** `match` reports the first start index where the pattern matches. */
  lemma ExecIs(s: string, p: Pattern, k: nat, sp: Span)
    requires k <= |s| && CaptureAt(s, k, p) == Some(sp)
    requires forall i :: 0 <= i < k ==> CaptureAt(s, i, p).None?
    ensures Exec(s, p) == Some(Match(k, sp))
  {
  }

  /** Neither anchoring nor a word boundary: "forget $BTC" asks for a chart
      of BTC, because "get $BTC" occurs inside it. */
  lemma ForgetAsksForChart(s: string)
    requires s == "forget $BTC"
    ensures DetectIntent(s).ChartRequest?
    ensures DetectIntent(s).symbol == "BTC"
  {
    ForgetChartMatch(s);
    assert DetectIntent(s).ChartRequest?;
    DetectIntentSymbol(s);
    assert Upper(s[8..11]) == "BTC";
  }

  lemma WordAtNot(s: string, i: int, w: string)
    requires |w| > 0 && 0 <= i < |s| && LowerChar(s[i]) != w[0]
    ensures !WordAt(s, i, w)
  {
    if WordAt(s, i, w) { WordAtFirst(s, i, w); }
  }
}
