/** The code explainer: the language list and its label lookup, the
    request built from the pasted code, the forty-attempt polling loop with
    its slower second phase and final check, the explanation it settles on,
    and the rewrite of that explanation into HTML for display.

    `StartExplain` is the synchronous part of the click handler, up to the
    first `await`; `FinishExplain` is the rest. The service's responses are
    parameters. */
module CodeExplainer {
  import opened Text
  import opened Options
  import opened AiService

  // ---------------------------------------------------------------- languages

  datatype Language = Language(value: string, labelText: string)

  const Languages := [
    Language("javascript", "JavaScript"),
    Language("typescript", "TypeScript"),
    Language("python", "Python"),
    Language("java", "Java"),
    Language("csharp", "C#"),
    Language("cpp", "C++"),
    Language("php", "PHP"),
    Language("ruby", "Ruby"),
    Language("go", "Go"),
    Language("rust", "Rust"),
    Language("swift", "Swift"),
    Language("kotlin", "Kotlin"),
    Language("solidity", "Solidity")
  ]

  const DefaultLanguage := "javascript"
  const NoLabel := "Select language"

  /** `value` is one of the listed languages. */
  predicate IsListed(value: string) {
    exists i :: 0 <= i < |Languages| && Languages[i].value == value
  }

  /** The label of the first entry of `langs` whose value is `value`. */
  function FindLabel(langs: seq<Language>, value: string): (r: Option<string>)
    ensures r.Some? <==> exists i :: 0 <= i < |langs| && langs[i].value == value
    ensures r.Some? ==> exists i :: 0 <= i < |langs| && langs[i].value == value && langs[i].labelText == r.value
  {
    if langs == [] then None
    else if langs[0].value == value then Some(langs[0].labelText)
    else
      var r := FindLabel(langs[1..], value);
      if r.Some? then
        var i :| 0 <= i < |langs[1..]| && langs[1..][i].value == value && langs[1..][i].labelText == r.value;
        assert langs[i + 1].value == value;
        r
      else
        assert forall i :: 1 <= i < |langs| ==> langs[i] == langs[1..][i - 1];
        r
  }

  /** The text of the language button: the selected language's label, or
      "Select language" when none is found. */
  function LabelFor(value: string): (shown: string)
    ensures IsListed(value) ==> exists i :: 0 <= i < |Languages| && Languages[i].value == value && Languages[i].labelText == shown
    ensures !IsListed(value) ==> shown == NoLabel
  {
    FindLabel(Languages, value).GetOr(NoLabel)
  }

  predicate DistinctValues(langs: seq<Language>) {
    forall i, j :: 0 <= i < j < |langs| ==> langs[i].value != langs[j].value
  }

  lemma LanguageValuesDistinct()
    ensures DistinctValues(Languages)
  {
    assert forall i, j :: 0 <= i < j < |Languages| ==> Languages[i].value != Languages[j].value;
  }

  /** In a list with distinct values, looking up an entry's value finds
      that entry's label. */
  lemma {:induction false} FindLabelOfEntry(langs: seq<Language>, i: nat)
    requires DistinctValues(langs) && i < |langs|
    ensures FindLabel(langs, langs[i].value) == Some(langs[i].labelText)
  {
    if i > 0 {
      assert langs[0].value != langs[i].value;
      assert langs[1..][i - 1] == langs[i];
      FindLabelOfEntry(langs[1..], i - 1);
    }
  }

  /** Every entry's value is shown with that entry's own label, never the
      fallback. */
  lemma LabelOfEntry(i: nat)
    requires i < |Languages|
    ensures LabelFor(Languages[i].value) == Languages[i].labelText
    ensures LabelFor(Languages[i].value) != NoLabel
  {
    LanguageValuesDistinct();
    FindLabelOfEntry(Languages, i);
    LabelsAreNotFallback();
  }

  lemma LabelsAreNotFallback()
    ensures forall i :: 0 <= i < |Languages| ==> Languages[i].labelText != NoLabel
  {
    assert forall i :: 0 <= i < |Languages| ==> |Languages[i].labelText| < |NoLabel|;
  }

  // ---------------------------------------------------------------- request

  /** `lines` joined with newlines. */
  function JoinLines(lines: seq<string>): string {
    if lines == [] then []
    else if |lines| == 1 then lines[0]
    else JoinLines(lines[..|lines| - 1]) + "\n" + lines[|lines| - 1]
  }

  /** The instruction's fixed lines; the blank line separates the numbered
      list from the closing paragraph. */
  const InstructionLines := [
    "You are a code explanation assistant. Your task is to analyze the provided code and explain:",
    "1. The purpose of the code",
    "2. The key components and how they work",
    "3. The overall code flow",
    "4. Any potential optimizations or improvements",
    "5. Any security concerns if applicable",
    "6. Do not include any code in your response.",
    "",
    "Explain the code in a clear, structured way that would be helpful for programmers of any skill level.",
    "Focus on the code's functionality, design patterns, and important aspects."
  ]

  /** The closing line, the only one that depends on the language. */
  function LanguageLine(language: string): string {
    "If the code is in a specific language (" + language + "), highlight any language-specific features being used."
  }

  /** The instruction sent as the single `assistant` turn. */
  function SystemInstruction(language: string): (r: string)
    ensures |r| > |LanguageLine(language)|
    ensures r[|r| - |LanguageLine(language)|..] == LanguageLine(language)
    ensures r[|r| - |LanguageLine(language)| - 1] == '\n'
  {
    var fixed := JoinLines(InstructionLines);
    assert JoinLines(InstructionLines + [LanguageLine(language)]) == fixed + "\n" + LanguageLine(language) by {
      assert (InstructionLines + [LanguageLine(language)])[..|InstructionLines|] == InstructionLines;
    }
    JoinLines(InstructionLines + [LanguageLine(language)])
  }

  function PromptHead(language: string): string {
    "Please explain this " + language + " code:\n\n"
  }

  /** The prompt: a sentence naming the language, a blank line, then the code. */
  function Prompt(language: string, code: string): (p: string)
    ensures |p| == |PromptHead(language)| + |code|
  {
    PromptHead(language) + code
  }

  /** The code is recovered from the prompt by dropping the head. */
  lemma PromptRoundTrip(language: string, code: string)
    ensures Prompt(language, code)[..|PromptHead(language)|] == PromptHead(language)
    ensures Prompt(language, code)[|PromptHead(language)|..] == code
  {
  }

  /** The body of the POST for `code` in `language`. */
  function ExplainPayload(language: string, code: string): (p: Payload)
    ensures p.messages == [Turn(Assistant, SystemInstruction(language))]
    ensures p.prompt == Prompt(language, code) && p.model == "GPT-4" && !p.markdown
  {
    Payload([Turn(Assistant, SystemInstruction(language))], Prompt(language, code), "GPT-4", false)
  }

  // ---------------------------------------------------------------- polling

  const MaxAttempts := 40
  const HttpErrorDelay := 2000
  const FailureText := "Sorry, I couldn't analyze your code. Please try again."
  const ErrorText := "Sorry, there was an error analyzing your code. Please try again later."

  /** The wait before the GET of attempt `k` (from 1): one second for the
      first eleven attempts (the delay is raised only after the eleventh
      wait), two seconds after that. */
  function DelayBefore(k: nat): (d: nat)
    ensures d == 1000 || d == 2000
  {
    if k <= 11 then 1000 else 2000
  }

  /** Total of the waits before the first `n` GETs. */
  function BaseWait(n: nat): nat {
    if n == 0 then 0 else BaseWait(n - 1) + DelayBefore(n)
  }

  /** One second each for the first eleven attempts, two seconds each after. */
  lemma {:induction false} BaseWaitClosedForm(n: nat)
    ensures BaseWait(n) == if n <= 11 then 1000 * n else 11000 + 2000 * (n - 11)
  {
    if n > 0 {
      BaseWaitClosedForm(n - 1);
    }
  }

  /** Forty attempts without HTTP errors wait 69 seconds; with an error on
      every attempt the loop waits at most 149 seconds in all. */
  lemma WorstCaseWait(polls: seq<PollResult>)
    requires |polls| >= MaxAttempts
    ensures BaseWait(MaxAttempts) == 69000
    ensures var run := Poll(polls, MaxAttempts, 0);
      BaseWait(run.attempts) + HttpErrorDelay * run.httpErrors <= 149000
  {
    var run := Poll(polls, MaxAttempts, 0);
    BaseWaitClosedForm(MaxAttempts);
    BaseWaitClosedForm(run.attempts);
    PollCountsHttpErrors(polls, MaxAttempts, 0);
  }

  /** The polling loop of `explainCode`: `threw` when a request or body
      escaped to the `catch`, otherwise the text it settled on (the failure
      text unless a `completed` status carried one) and whether it settled;
      `waited` is the time spent in its timers. */
  method PollExplanation(polls: seq<PollResult>)
      returns (threw: bool, isCompleted: bool, text: string, attempts: nat, waited: nat)
    requires |polls| >= MaxAttempts
    ensures var run := Poll(polls, MaxAttempts, 0);
      && threw == (run.end == Threw)
      && isCompleted == (run.end == Settled)
      && attempts == run.attempts
      && (!threw ==> text == run.answer.GetOr(FailureText))
      && waited == BaseWait(run.attempts) + HttpErrorDelay * run.httpErrors
  {
    text := FailureText;
    isCompleted := false;
    attempts := 0;
    waited := 0;
    threw := false;
    var pollingDelay := 1000;
    var errs := 0;
    while !isCompleted && attempts < MaxAttempts
      invariant attempts <= MaxAttempts
      invariant pollingDelay == if attempts <= 10 then 1000 else 2000
      invariant waited == BaseWait(attempts) + HttpErrorDelay * errs
      invariant !isCompleted ==> text == FailureText && Poll(polls, MaxAttempts, 0) == Resume(polls, MaxAttempts, attempts, errs)
      invariant isCompleted ==>
        var run := Poll(polls, MaxAttempts, 0);
        run.end == Settled && run.attempts == attempts && run.httpErrors == errs
        && text == run.answer.GetOr(FailureText)
    {
      attempts := attempts + 1;
      assert pollingDelay == DelayBefore(attempts) && BaseWait(attempts) == BaseWait(attempts - 1) + pollingDelay;
      waited := waited + pollingDelay;
      if attempts > 10 && pollingDelay < 2000 {
        pollingDelay := 2000;
      }
      match polls[attempts - 1]
      case Rejected =>
        assert Resume(polls, MaxAttempts, attempts - 1, errs) == PollRun(Threw, attempts, None, errs);
        threw := true;
        return;
      case HttpError =>
        assert Resume(polls, MaxAttempts, attempts - 1, errs) == Resume(polls, MaxAttempts, attempts, errs + 1);
        waited := waited + HttpErrorDelay;
        errs := errs + 1;
      case Status(status, gpt) =>
        if status == "completed" {
          assert Resume(polls, MaxAttempts, attempts - 1, errs)
            == PollRun(Settled, attempts, if gpt != "" then Some(gpt) else None, errs);
          isCompleted := true;
          if gpt != "" {
            text := gpt;
          }
        } else if status == "error" || status == "not_found" {
          assert Resume(polls, MaxAttempts, attempts - 1, errs) == PollRun(Settled, attempts, None, errs);
          isCompleted := true;
        } else {
          assert Resume(polls, MaxAttempts, attempts - 1, errs) == Resume(polls, MaxAttempts, attempts, errs);
        }
    }
  }

  /** The one extra GET after a timeout: only a `completed` status with
      text counts; an HTTP error, another status, or a request or body that
      throws (caught on the spot) leaves nothing. */
  function FinalCheck(p: PollResult): (r: Option<string>)
    ensures r.Some? <==> p.Status? && p.status == "completed" && p.gpt != ""
    ensures r.Some? ==> r.value == p.gpt
  {
    match p
    case Status(status, gpt) => if status == "completed" && gpt != "" then Some(gpt) else None
    case _ => None
  }

  /** The explanation a request ends with; `polls[40]` answers the final
      check, which is made only after a timeout. */
  function ExplainResult(post: PostResult, polls: seq<PollResult>): (text: string)
    requires |polls| > MaxAttempts
    ensures text != ""
  {
    if post.PostFailed? || post.taskId == "" then ErrorText
    else
      var run := Poll(polls, MaxAttempts, 0);
      PollAnswer(polls, MaxAttempts, 0);
      match run.end
      case Threw => ErrorText
      case Settled => run.answer.GetOr(FailureText)
      case TimedOut => FinalCheck(polls[MaxAttempts]).GetOr(FailureText)
  }

  /** The error text exactly when the POST fails, carries no task id, or a
      poll throws. */
  lemma ExplainResultError(post: PostResult, polls: seq<PollResult>)
    requires |polls| > MaxAttempts
    requires post.PostFailed? || post.taskId == "" || Poll(polls, MaxAttempts, 0).end == Threw
    ensures ExplainResult(post, polls) == ErrorText
  {
  }

  /** Otherwise the explanation is a `completed` status's text, taken from
      the attempt that stopped the loop, or, after forty pending attempts,
      from the final check; failing both, the failure text. */
  lemma ExplainResultAnswer(post: PostResult, polls: seq<PollResult>)
    requires |polls| > MaxAttempts
    requires post.PostAccepted? && post.taskId != ""
    requires Poll(polls, MaxAttempts, 0).end != Threw
    ensures var run := Poll(polls, MaxAttempts, 0);
      var p := if run.end == TimedOut then polls[MaxAttempts] else polls[run.attempts - 1];
      if p.Status? && p.status == "completed" && p.gpt != ""
      then ExplainResult(post, polls) == p.gpt
      else ExplainResult(post, polls) == FailureText
  {
    PollBounds(polls, MaxAttempts, 0);
    PollAnswer(polls, MaxAttempts, 0);
  }

  /** The final check is made only when all forty responses were pending. */
  lemma FinalCheckOnlyAfterTimeout(polls: seq<PollResult>)
    requires |polls| > MaxAttempts
    ensures Poll(polls, MaxAttempts, 0).end == TimedOut <==>
      forall j :: 0 <= j < MaxAttempts ==> !Decisive(polls[j])
  {
    PollStopsAtFirstDecisive(polls, MaxAttempts, 0);
  }

  // ---------------------------------------------------------------- display

  /** `.` in a JavaScript regular expression matches anything but these. */
  predicate IsLineTerminator(c: char) {
    c == '\n' || c == '\r' || c == '\U{2028}' || c == '\U{2029}'
  }

  /** Text with no newline character in it. */
  predicate NoNewline(s: string) {
    forall k :: 0 <= k < |s| ==> s[k] != '\n'
  }

  /** `replace(/\n/g, '<br />')`. */
  function ReplaceNewlines(s: string): (r: string)
    ensures NoNewline(r)
    ensures NoNewline(s) ==> r == s
  {
    if s == [] then []
    else
      var rest := ReplaceNewlines(s[1..]);
      var head := if s[0] == '\n' then "<br />" else [s[0]];
      assert forall i :: 0 <= i < |head + rest| ==> (head + rest)[i] == if i < |head| then head[i] else rest[i - |head|];
      head + rest
  }

  /** The rewrite works piece by piece. */
  lemma {:induction false} ReplaceNewlinesAppend(a: string, b: string)
    ensures ReplaceNewlines(a + b) == ReplaceNewlines(a) + ReplaceNewlines(b)
    decreases |a|
  {
    if a != [] {
      assert (a + b)[1..] == a[1..] + b;
      ReplaceNewlinesAppend(a[1..], b);
    } else {
      assert a + b == b;
    }
  }

  /** A `**` starts at index `i`. */
  predicate OpensBold(s: string, i: nat) {
    i + 1 < |s| && s[i] == '*' && s[i + 1] == '*'
  }

  /** A line terminator occurs in `s[k..j]`. */
  predicate TerminatorIn(s: string, k: nat, j: nat)
    requires j <= |s|
  {
    exists m :: k <= m < j && IsLineTerminator(s[m])
  }

  /** Index of the `**` that closes a bold run whose text starts at `k`:
      the first one, provided no line terminator comes before it. When
      there is none, every later `**` has a line terminator before it. */
  function FindClose(s: string, k: nat): (r: Option<nat>)
    ensures r.Some? ==> k <= r.value && OpensBold(s, r.value)
    ensures r.Some? ==> forall j :: k <= j < r.value ==> !IsLineTerminator(s[j])
    ensures r.Some? ==> forall j: nat :: k <= j < r.value ==> !OpensBold(s, j)
    ensures r.None? ==> forall j: nat :: k <= j && OpensBold(s, j) ==> TerminatorIn(s, k, j)
    decreases |s| - k
  {
    if k + 1 >= |s| then None
    else if s[k] == '*' && s[k + 1] == '*' then Some(k)
    else if IsLineTerminator(s[k]) then None
    else FindClose(s, k + 1)
  }

  /** `<strong>$1</strong>`: the element the bold pattern emits for group 1. */
  function Strong(x: string): string {
    "<strong>" + x + "</strong>"
  }

  /** No `**` starts at an index from `i` on. */
  predicate NoBoldFrom(s: string, i: nat) {
    forall j: nat :: i <= j < |s| ==> !OpensBold(s, j)
  }

  /** The global replacement of the lazy pattern `\*\*(.*?)\*\*` by
      `<strong>$1</strong>`, from index `i` on. Text with no `**` from `i`
      on is copied as it is. */
  function BoldFrom(s: string, i: nat): (r: string)
    ensures NoBoldFrom(s, i) ==> r == if i < |s| then s[i..] else []
    decreases |s| - i
  {
    if i >= |s| then []
    else if OpensBold(s, i) && FindClose(s, i + 2).Some? then
      var j := FindClose(s, i + 2).value;
      Strong(s[i + 2..j]) + BoldFrom(s, j + 2)
    else
      var rest := BoldFrom(s, i + 1);
      CopyStep(s, i, rest);
      [s[i]] + rest
  }

  /** A character that opens no bold run is copied: when no `**` follows,
      copying it in front of the copied rest gives the text from `i`. */
  lemma CopyStep(s: string, i: nat, rest: string)
    requires i < |s|
    requires NoBoldFrom(s, i + 1) ==> rest == if i + 1 < |s| then s[i + 1..] else []
    ensures NoBoldFrom(s, i) ==> [s[i]] + rest == s[i..]
  {
    if NoBoldFrom(s, i) {
      assert NoBoldFrom(s, i + 1);
      if i + 1 < |s| {
        assert s[i..] == [s[i]] + s[i + 1..];
      }
    }
  }

  /** The bold replacement over the whole text, with the global flag:
      text without `**` is left alone. */
  function ReplaceBold(s: string): (r: string)
    ensures NoBoldFrom(s, 0) ==> r == s
  {
    BoldFrom(s, 0)
  }

  /** A closing `**` with no line terminator and no `**` in between, and
      no `*` right before it, turns the pair into a `<strong>` element. */
  lemma BoldWraps(w: string)
    requires forall j :: 0 <= j < |w| ==> !IsLineTerminator(w[j])
    requires NoBoldFrom(w, 0)
    requires w == [] || w[|w| - 1] != '*'
    ensures ReplaceBold("**" + w + "**") == "<strong>" + w + "</strong>"
  {
    var s := "**" + w + "**";
    assert forall m :: 2 <= m < |w| + 2 ==> s[m] == w[m - 2];
    forall m: nat | 2 <= m < |w| + 2
      ensures !OpensBold(s, m)
    {
      if m + 1 < |w| + 2 {
        assert !OpensBold(w, m - 2);
      }
    }
    FindCloseSkips(s, 2, |w| + 2);
    assert FindClose(s, 2) == Some(|w| + 2);
    assert s[2..|w| + 2] == w;
    assert BoldFrom(s, |w| + 4) == [];
  }

  lemma {:induction false} FindCloseSkips(s: string, k: nat, j: nat)
    requires k <= j && j + 2 <= |s| && s[j] == '*' && s[j + 1] == '*'
    requires forall m :: k <= m < j ==> !IsLineTerminator(s[m])
    requires forall m: nat :: k <= m < j ==> !OpensBold(s, m)
    ensures FindClose(s, k) == Some(j)
    decreases j - k
  {
    if k < j {
      FindCloseSkips(s, k + 1, j);
    }
  }

  lemma NoNewlineConcat(a: string, b: string)
    requires NoNewline(a) && NoNewline(b)
    ensures NoNewline(a + b)
  {
  }

  lemma NoNewlineSlice(s: string, i: nat, j: nat)
    requires i <= j <= |s| && NoNewline(s)
    ensures NoNewline(s[i..j])
  {
  }

  /** The bold rewrite adds no newline: it emits only characters of `s`
      and the tag text. */
  lemma {:induction false} BoldFromKeepsNoNewline(s: string, i: nat)
    requires NoNewline(s)
    ensures NoNewline(BoldFrom(s, i))
    decreases |s| - i
  {
    if i < |s| {
      if OpensBold(s, i) && FindClose(s, i + 2).Some? {
        var j := FindClose(s, i + 2).value;
        BoldFromKeepsNoNewline(s, j + 2);
        BoldStepKeepsNoNewline(s, i, j);
      } else {
        BoldFromKeepsNoNewline(s, i + 1);
        CopyKeepsNoNewline(s, i);
      }
    }
  }

  /** Copying a character that opens no bold run keeps the output
      newline-free. */
  lemma CopyKeepsNoNewline(s: string, i: nat)
    requires i < |s| && !(OpensBold(s, i) && FindClose(s, i + 2).Some?)
    requires NoNewline(s) && NoNewline(BoldFrom(s, i + 1))
    ensures NoNewline(BoldFrom(s, i))
  {
    NoNewlineSlice(s, i, i + 1);
    NoNewlineConcat([s[i]], BoldFrom(s, i + 1));
    assert BoldFrom(s, i) == [s[i]] + BoldFrom(s, i + 1);
  }

  /** One `<strong>` replacement step keeps the output newline-free. */
  lemma BoldStepKeepsNoNewline(s: string, i: nat, j: nat)
    requires OpensBold(s, i) && FindClose(s, i + 2) == Some(j)
    requires NoNewline(s) && NoNewline(BoldFrom(s, j + 2))
    ensures NoNewline(BoldFrom(s, i))
  {
    NoNewlineSlice(s, i + 2, j);
    WrapKeepsNoNewline(s[i + 2..j], BoldFrom(s, j + 2));
    BoldFromWraps(s, i, j);
  }

  /** At an opening `**` with a closing one at `j`, the text between is wrapped. */
  lemma BoldFromWraps(s: string, i: nat, j: nat)
    requires OpensBold(s, i) && FindClose(s, i + 2) == Some(j)
    ensures BoldFrom(s, i) == Strong(s[i + 2..j]) + BoldFrom(s, j + 2)
  {
  }

  /** Wrapping newline-free text in the tags and appending newline-free
      text gives newline-free text. */
  lemma WrapKeepsNoNewline(x: string, y: string)
    requires NoNewline(x) && NoNewline(y)
    ensures NoNewline("<strong>" + x + "</strong>" + y)
  {
    assert NoNewline("<strong>");
    assert NoNewline("</strong>");
    NoNewlineConcat("<strong>", x);
    NoNewlineConcat("<strong>" + x, "</strong>");
    NoNewlineConcat("<strong>" + x + "</strong>", y);
  }

  /** The HTML the explanation tab renders: it has no newline left, and
      plain text (no newline, no `**`) is rendered as it is. */
  function ExplanationHtml(explanation: string): (html: string)
    ensures NoNewline(html)
    ensures NoNewline(explanation) && NoBoldFrom(explanation, 0) ==> html == explanation
  {
    var text := ReplaceNewlines(explanation);
    BoldFromKeepsNoNewline(text, 0);
    ReplaceBold(text)
  }

  // ---------------------------------------------------------------- component

  datatype Tab = CodeTab | ExplanationTab

  /** A request sent and not yet answered. */
  datatype Request = Request(payload: Payload)

  class Explainer {
    var code: string
    var language: string
    var isDropdownOpen: bool
    var isExplaining: bool
    var explanation: string
    var activeTab: Tab
    var pending: Option<Request>

    ghost predicate Valid()
      reads this
    {
      IsListed(language) && (isExplaining <==> pending.Some?)
    }

    constructor()
      ensures Valid()
      ensures code == "" && language == DefaultLanguage && !isDropdownOpen
      ensures !isExplaining && explanation == "" && activeTab == CodeTab && pending == None
    {
      code := "";
      language := DefaultLanguage;
      isDropdownOpen := false;
      isExplaining := false;
      explanation := "";
      activeTab := CodeTab;
      pending := None;
      assert Languages[0].value == DefaultLanguage;
    }

    /** The label shown on the language button is the selected language's. */
    lemma ButtonLabel()
      requires Valid()
      ensures LabelFor(language) != NoLabel
    {
      var i :| 0 <= i < |Languages| && Languages[i].value == language;
      LabelOfEntry(i);
    }

    method EditCode(text: string)
      requires Valid()
      modifies this
      ensures Valid()
      ensures code == text
      ensures language == old(language) && isDropdownOpen == old(isDropdownOpen)
      ensures isExplaining == old(isExplaining) && explanation == old(explanation)
      ensures activeTab == old(activeTab) && pending == old(pending)
    {
      code := text;
    }

    method ToggleDropdown()
      requires Valid()
      modifies this
      ensures Valid()
      ensures isDropdownOpen == !old(isDropdownOpen)
      ensures code == old(code) && language == old(language)
      ensures isExplaining == old(isExplaining) && explanation == old(explanation)
      ensures activeTab == old(activeTab) && pending == old(pending)
    {
      isDropdownOpen := !isDropdownOpen;
    }

    /** A document `mousedown` outside the language picker closes its list;
        one inside leaves it as it is. */
    method MouseDown(insidePicker: bool)
      requires Valid()
      modifies this
      ensures Valid()
      ensures isDropdownOpen <==> old(isDropdownOpen) && insidePicker
      ensures code == old(code) && language == old(language)
      ensures isExplaining == old(isExplaining) && explanation == old(explanation)
      ensures activeTab == old(activeTab) && pending == old(pending)
    {
      if !insidePicker {
        isDropdownOpen := false;
      }
    }

    /** Picking entry `i` of the open list selects it and closes the list. */
    method SelectLanguage(i: nat)
      requires Valid()
      requires i < |Languages|
      modifies this
      ensures Valid()
      ensures language == Languages[i].value && !isDropdownOpen
      ensures LabelFor(language) == Languages[i].labelText
      ensures code == old(code)
      ensures isExplaining == old(isExplaining) && explanation == old(explanation)
      ensures activeTab == old(activeTab) && pending == old(pending)
    {
      language := Languages[i].value;
      isDropdownOpen := false;
      LabelOfEntry(i);
    }

    method SelectTab(tab: Tab)
      requires Valid()
      modifies this
      ensures Valid()
      ensures activeTab == tab
      ensures code == old(code) && language == old(language) && isDropdownOpen == old(isDropdownOpen)
      ensures isExplaining == old(isExplaining) && explanation == old(explanation) && pending == old(pending)
    {
      activeTab := tab;
    }

    /** Clicking "Explain Code", which is disabled while a request runs.
        Blank code does nothing; otherwise the request for the current code
        and language is sent and the explanation tab is shown. */
    method StartExplain()
      requires Valid()
      requires !isExplaining
      modifies this
      ensures Valid()
      ensures IsBlank(old(code)) ==>
        !isExplaining && activeTab == old(activeTab) && pending == None
      ensures !IsBlank(old(code)) ==>
        isExplaining && activeTab == ExplanationTab
        && pending == Some(Request(ExplainPayload(old(language), old(code))))
      ensures code == old(code) && language == old(language) && isDropdownOpen == old(isDropdownOpen)
      ensures explanation == old(explanation)
    {
      // `!code.trim()`, which holds exactly for blank code (TrimEmptyIffBlank)
      if IsBlank(code) {
        return;
      }
      isExplaining := true;
      activeTab := ExplanationTab;
      pending := Some(Request(ExplainPayload(language, code)));
    }

    /** The request finishes: `post` answers its POST, `polls[0..40]` its
        status requests and `polls[40]` the final check. */
    method FinishExplain(post: PostResult, polls: seq<PollResult>)
      requires Valid()
      requires isExplaining
      requires |polls| > MaxAttempts
      modifies this
      ensures Valid()
      ensures explanation == ExplainResult(post, polls) && explanation != ""
      ensures !isExplaining && pending == None
      ensures code == old(code) && language == old(language) && isDropdownOpen == old(isDropdownOpen)
      ensures activeTab == old(activeTab)
    {
      var text := ErrorText;
      if post.PostAccepted? && post.taskId != "" {
        var threw, isCompleted, answer, attempts, waited := PollExplanation(polls);
        if !threw {
          text := answer;
          if !isCompleted {
            match polls[MaxAttempts]
            case Status(status, gpt) =>
              if status == "completed" && gpt != "" {
                text := gpt;
              }
            case _ =>
          }
        }
      }
      PollAnswer(polls, MaxAttempts, 0);
      explanation := text;
      isExplaining := false;
      pending := None;
    }
  }
}
