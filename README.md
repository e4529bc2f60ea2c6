# Forza AI front end: a verified model of its behaviour

This Dafny project models the behaviour of the Forza AI web front end, a
React/TypeScript site about cryptocurrency. It proves properties of that
model. The modelled parts are:

- **AI chat** (`ChatInterface.tsx`). The send handler has two branches.
  - A message such as "show me $BTC chart" matches one of two case-insensitive
    patterns. It gets a chart reply 1.5 s later.
  - Any other non-blank message goes to the AI service with the conversation
    history. The service is then polled for up to ten attempts.
  - The page also has suggestion buttons and the "Recent Activity" previews.
- **Code explainer** (`CodeExplainer.tsx`). It has a language picker and builds
  the instruction and the prompt. It polls up to forty times, with the delay
  rising from 1 s to 2 s after the eleventh attempt, then makes one final check
  after a timeout. The answer is rendered with `<br />` and `<strong>`.
- **Market data table** (`MarketData.tsx`). It has a search filter, row
  numbering, the up/down change badge and the choice of compact notation. It
  also picks each coin's chart series, with a fallback series for a coin that
  has none.
- **Mock sign-in.** It is a `localStorage` flag named `forza_logged_in`, plus:
  - the guard hook, which sends a signed-out visitor to
    `/login?redirect=<encoded path>`;
  - the login page, which forwards a signed-in visitor;
  - the login form, with its timed reject/accept/navigate steps;
  - the header's auth section, menu and links;
  - the landing page's "Get Started" button.

Stateful components are classes. Their handlers are methods with `modifies`
clauses. Each `setTimeout` callback and each part of an `async` handler after
its first `await` is a separate step:

- `FireChartTimer` and `CompleteRequest` in the chat;
- `FinishExplain` in the code explainer;
- `FireTimer` in the login form.

Some inputs of the original are parameters of the model:

- the clock (`Date.now()`);
- the random price of a chart reply;
- the answers of the AI service: a `PostResult` and a sequence of
  `PollResult`s, one per status request. A caller passes enough of them for
  the longest possible loop. That is at least ten for the chat. For the code
  explainer it is more than forty, including the final check.

The two polling loops are methods with loop invariants. Both are proved
against one recursive specification, `AiService.Poll`, whose properties are
lemmas.

The browser routines the sign-in flow relies on are modelled concretely, so
that the round trip can be proved. A visitor sent to the login page from a
path returns to exactly that path. The routines are:

- `encodeURIComponent`: UTF-8 and percent-encoding, as in ECMAScript;
- `URLSearchParams.get`: the application/x-www-form-urlencoded parser of the
  WHATWG URL standard.

Behaviours of the code that the model shows as written:

- The intent patterns have no word boundary, so "forget $BTC" asks for a BTC
  chart (`ChatIntent.ForgetAsksForChart`).
- The chart branch returns inside `try`. Its `finally` therefore clears the
  typing indicator at once. The reply's own timer clears the indicator again
  1.5 s later, even if a question sent meanwhile is still being answered. The
  model keeps the in-flight requests as a list for that reason.
- The landing page's button sends a visitor to `/login` without a `redirect`
  parameter. This happens even when the visitor is signed in, until the mount
  effect has run. Either way the visitor ends on `/chat`
  (`Home.GetStartedEndsOnChat`).

## Model

| member | source | states |
|---|---|---|
| Text.Lower | src/components/Home/MarketData.tsx:186-187 | `toLowerCase` keeps the length and maps each character, giving a lower-case letter for each ASCII letter |
| Text.Upper | forza-main/src/components/Chat/ChatInterface.tsx:249 | `toUpperCase` keeps the length and maps each character, giving an upper-case letter for each ASCII letter |
| Text.TrimStart | forza-main/src/components/Chat/ChatInterface.tsx:229 | the result is a suffix of the input, and what was removed is whitespace |
| Text.TrimEnd | forza-main/src/components/Chat/ChatInterface.tsx:229 | the result is a prefix of the input, and what was removed is whitespace |
| Text.Trim | forza-main/src/components/Chat/ChatInterface.tsx:229 | `trim()` is the slice of the input between a blank prefix and a blank suffix, and starts and ends with non-whitespace |
| Text.TrimEmptyIffBlank | forza-main/src/components/Chat/ChatInterface.tsx:229 | `!input.trim()` holds exactly when every character is whitespace, in both directions |
| Text.IncludesIff | src/components/Home/MarketData.tsx:186-187 | `includes` succeeds exactly when the query occurs at some position |
| Text.IncludesAt | src/components/Home/MarketData.tsx:186-187 | an occurrence at any position is found |
| Text.NatToString | forza-main/src/components/Chat/ChatInterface.tsx:232 | a clock reading renders as a non-empty string of decimal digits |
| ChatIntent.SpaceRunEnd | forza-main/src/components/Chat/ChatInterface.tsx:242 | `\s+` consumes the longest run of whitespace |
| ChatIntent.AlnumRunEnd | forza-main/src/components/Chat/ChatInterface.tsx:242 | `[A-Za-z0-9]+` consumes the longest run of ASCII letters and digits |
| ChatIntent.KeywordEnd | forza-main/src/components/Chat/ChatInterface.tsx:242 | `(?:show\|display\|get)` matches case-insensitively exactly when one of the three words is there |
| ChatIntent.DollarAfterKeyword | forza-main/src/components/Chat/ChatInterface.tsx:242 | the `$` is found after the spaces and the optional `me` |
| ChatIntent.ChartCaptureAt | forza-main/src/components/Chat/ChatInterface.tsx:242 | a capture found at position i is a non-empty span after i |
| ChatIntent.AnalysisCaptureAt | forza-main/src/components/Chat/ChatInterface.tsx:243 | wherever the analysis pattern matches, the chart pattern matches with the same capture |
| ChatIntent.FirstPresent | forza-main/src/components/Chat/ChatInterface.tsx:245-246 | returns the first position with a match and no earlier one, or reports that none matches |
| ChatIntent.Attempts | forza-main/src/components/Chat/ChatInterface.tsx:245-246 | the matcher is tried at every start position 0..n |
| ChatIntent.Exec | forza-main/src/components/Chat/ChatInterface.tsx:245-246 | `match` reports the leftmost start where the pattern matches, with its capture, or that there is none |
| ChatIntent.ChartCaptureAtCorrect | forza-main/src/components/Chat/ChatInterface.tsx:242 | the matcher succeeds exactly when the chart regex, written as a declarative predicate, matches; its capture is the greedy (longest) group 1 |
| ChatIntent.AnalysisCaptureAtCorrect | forza-main/src/components/Chat/ChatInterface.tsx:243 | the matcher succeeds exactly when the analysis regex matches |
| ChatIntent.AnalysisMatchImpliesChartMatch | forza-main/src/components/Chat/ChatInterface.tsx:242-249 | an analysis match implies a chart match that starts no later, so the symbol comes from the chart match |
| ChatIntent.ExecFindsAnyMatch | forza-main/src/components/Chat/ChatInterface.tsx:245-248 | `match` succeeds exactly when the pattern matches at some position |
| ChatIntent.DetectIntent | forza-main/src/components/Chat/ChatInterface.tsx:245-250 | the chart branch is taken exactly when `chartMatch` is non-null: `analysisMatch` never adds a case |
| ChatIntent.DetectIntentBranch | forza-main/src/components/Chat/ChatInterface.tsx:248 | the chart branch is taken exactly when the chart regex matches somewhere |
| ChatIntent.DetectIntentAnalysisFlag | forza-main/src/components/Chat/ChatInterface.tsx:250 | `isAnalysis` holds exactly when the analysis regex matches somewhere |
| ChatIntent.ChartMatchCapture | forza-main/src/components/Chat/ChatInterface.tsx:242-249 | the captured symbol follows a `$` and is the whole run of letters and digits there |
| ChatIntent.DetectIntentSymbol | forza-main/src/components/Chat/ChatInterface.tsx:249 | the symbol is group 1 of the chart match in upper case: non-empty, upper-case letters and digits only |
| ChatIntent.ForgetAsksForChart | forza-main/src/components/Chat/ChatInterface.tsx:242-249 | with no word boundary, "forget $BTC" asks for a BTC price chart |
| AiService.CountHttpErrors | forza-main/src/components/Chat/ChatInterface.tsx:333-338 | there are never more HTTP errors than responses |
| AiService.Poll | forza-main/src/components/Chat/ChatInterface.tsx:327-351 | the loop makes between k and max attempts |
| AiService.PollBounds | forza-main/src/components/Chat/ChatInterface.tsx:327-351 | a timeout means all attempts were used without a decisive answer; otherwise the last response read was decisive, and the loop throws exactly when that response was a rejected request |
| AiService.PollStopsAtFirstDecisive | forza-main/src/components/Chat/ChatInterface.tsx:327-351 | the loop stops at the first completed/error/not_found status or rejection; it times out exactly when there is none |
| AiService.PollAnswer | forza-main/src/components/Chat/ChatInterface.tsx:342-347 | the loop yields an answer exactly when it stopped on `completed` with a non-empty `gpt`, and the answer is that text |
| AiService.PollCountsHttpErrors | forza-main/src/components/Chat/ChatInterface.tsx:333-338 | the recorded HTTP errors are the HTTP errors among the responses read |
| AiService.CountHttpErrorsCons | forza-main/src/components/Chat/ChatInterface.tsx:333-338 | counting HTTP errors is additive over a first response |
| Chat.ClockIdIsNotWelcome | forza-main/src/components/Chat/ChatInterface.tsx:232 | an id made from the clock is never "welcome", so the history filter never drops a sent message |
| Chat.ChartReply | forza-main/src/components/Chat/ChatInterface.tsx:257-274 | the chart reply is an AI message with id `now+1` and the text "Here's the technical analysis for $SYM:" or "Here's the price chart for $SYM:", a coin card for the upper-cased symbol named "<symbol> Coin" with the given price and change, the analysis or price chart type, and the timestamp `now` |
| Chat.TurnOf | forza-main/src/components/Chat/ChatInterface.tsx:286-287 | a message's turn has role `assistant` exactly for AI messages, and the message's text |
| Chat.History | forza-main/src/components/Chat/ChatInterface.tsx:283-288 | the history is never longer than the messages, and with no welcome message it is the turn of every message in order |
| Chat.HistoryConcat | forza-main/src/components/Chat/ChatInterface.tsx:283-288 | filter-then-map works piece by piece over a concatenation |
| Chat.HistoryAppend | forza-main/src/components/Chat/ChatInterface.tsx:283-288 | appending a message leaves the history unchanged exactly when its id is "welcome"; any other message adds exactly its turn |
| Chat.HistoryClosedForm | forza-main/src/components/Chat/ChatInterface.tsx:283-288 | when only the first message is the welcome, the history is the turns of all the other messages, in order |
| Chat.HistoryLength | forza-main/src/components/Chat/ChatInterface.tsx:283-288 | with only the first message being the welcome, the history has one turn per other message |
| Chat.BuildPayload | forza-main/src/components/Chat/ChatInterface.tsx:290-300 | the body holds the instructions as the first `assistant` turn, then the history of the earlier messages, the prompt, model "GPT-4" and `markdown: false` |
| Chat.ReplyText | forza-main/src/components/Chat/ChatInterface.tsx:302-375 | every request ends with a non-empty AI message |
| Chat.ReplyTextFailure | forza-main/src/components/Chat/ChatInterface.tsx:308-320 | a failed POST, a missing task id or a rejected poll ends with the connection-error text |
| Chat.ReplyTextAnswer | forza-main/src/components/Chat/ChatInterface.tsx:322-364 | otherwise the reply is the `gpt` text of a deciding `completed` status, or the default apology |
| Chat.PollingTimeBound | forza-main/src/components/Chat/ChatInterface.tsx:327-338 | the polling timers add up to at most 30 seconds |
| Chat.PollTask | forza-main/src/components/Chat/ChatInterface.tsx:322-351 | the `while` loop agrees with `Poll`: whether it throws, its attempts, its text and the time spent in timers |
| Chat.PreviewText | forza-main/src/components/Chat/ChatInterface.tsx:430-431 | text of up to 40 characters is shown whole; longer text shows its first 40 characters and "..." |
| Chat.RecentActivity | forza-main/src/components/Chat/ChatInterface.tsx:427-431 | the previews are of the last min(3, n) messages, oldest first |
| Chat.ChatSession.constructor | forza-main/src/components/Chat/ChatInterface.tsx:160-169 | the session starts with only the welcome message, empty input and no typing indicator |
| Chat.ChatSession.TypeInput | forza-main/src/components/Chat/ChatInterface.tsx:591 | typing replaces the input and nothing else |
| Chat.ChatSession.ChooseSuggestion | forza-main/src/components/Chat/ChatInterface.tsx:381-384 | a suggestion becomes the (non-blank) input |
| Chat.ChatSession.Submit | forza-main/src/components/Chat/ChatInterface.tsx:227-300 | blank input changes nothing; otherwise the user message is appended and the input cleared, then either a chart reply is scheduled with the indicator off, or the request with the earlier history is sent with the indicator on |
| Chat.ChatSession.Dispatch | forza-main/src/components/Chat/ChatInterface.tsx:248-300 | the chart branch schedules the chart reply (its `finally` clears `isTyping`); the other branch sends the payload |
| Chat.ChatSession.FireChartTimer | forza-main/src/components/Chat/ChatInterface.tsx:275-278 | the oldest scheduled chart reply is appended and the indicator is cleared |
| Chat.ChatSession.CompleteRequest | forza-main/src/components/Chat/ChatInterface.tsx:302-378 | the request ends with exactly one AI message carrying `ReplyText`, and the indicator is cleared |
| Chat.ChatSession.NextHistory | forza-main/src/components/Chat/ChatInterface.tsx:283-288 | the next question goes out with one turn per message on screen except the welcome |
| CodeExplainer.FindLabel | forza-main/src/components/CodeExplainer/CodeExplainer.tsx:257 | `find` returns the label of an entry with that value, and fails only when there is none |
| CodeExplainer.LabelFor | forza-main/src/components/CodeExplainer/CodeExplainer.tsx:257 | the button shows the listed label of the value, or "Select language" for an unlisted one |
| CodeExplainer.LanguageValuesDistinct | forza-main/src/components/CodeExplainer/CodeExplainer.tsx:12-26 | no two languages share a value |
| CodeExplainer.FindLabelOfEntry | forza-main/src/components/CodeExplainer/CodeExplainer.tsx:257 | with distinct values, looking up an entry's value gives that entry's label |
| CodeExplainer.LabelOfEntry | forza-main/src/components/CodeExplainer/CodeExplainer.tsx:257-270 | a picked language shows its own label, never the fallback |
| CodeExplainer.LabelsAreNotFallback | forza-main/src/components/CodeExplainer/CodeExplainer.tsx:12-26 | no language is labelled "Select language" |
| CodeExplainer.SystemInstruction | forza-main/src/components/CodeExplainer/CodeExplainer.tsx:61-71 | the instruction ends, on a line of its own, with the sentence naming the selected language |
| CodeExplainer.Prompt | forza-main/src/components/CodeExplainer/CodeExplainer.tsx:80 | the prompt is as long as its head plus the code |
| CodeExplainer.PromptRoundTrip | forza-main/src/components/CodeExplainer/CodeExplainer.tsx:80 | the code can be read back unchanged after the head that names the language |
| CodeExplainer.ExplainPayload | forza-main/src/components/CodeExplainer/CodeExplainer.tsx:73-92 | the body is the single `assistant` instruction turn, the prompt, model "GPT-4" and `markdown: false` |
| CodeExplainer.DelayBefore | forza-main/src/components/CodeExplainer/CodeExplainer.tsx:113-121 | each wait before a status request is one or two seconds |
| CodeExplainer.BaseWaitClosedForm | forza-main/src/components/CodeExplainer/CodeExplainer.tsx:113-121 | the first eleven waits are 1 s, and 2 s after that |
| CodeExplainer.WorstCaseWait | forza-main/src/components/CodeExplainer/CodeExplainer.tsx:111-143 | forty attempts wait 69 s, and with HTTP-error pauses at most 149 s |
| CodeExplainer.PollExplanation | forza-main/src/components/CodeExplainer/CodeExplainer.tsx:109-143 | the `while` loop with its growing `pollingDelay` agrees with `Poll`: throw, completion, attempts, text and the time spent in timers |
| CodeExplainer.FinalCheck | forza-main/src/components/CodeExplainer/CodeExplainer.tsx:146-156 | the final check yields text exactly for a `completed` status with a non-empty `gpt` |
| CodeExplainer.ExplainResult | forza-main/src/components/CodeExplainer/CodeExplainer.tsx:82-163 | an explanation run always ends with non-empty text |
| CodeExplainer.ExplainResultError | forza-main/src/components/CodeExplainer/CodeExplainer.tsx:95-107 | a failed POST, a missing task id or a rejected poll ends with the error text |
| CodeExplainer.ExplainResultAnswer | forza-main/src/components/CodeExplainer/CodeExplainer.tsx:109-160 | otherwise the text comes from the deciding status, or after a timeout from the final check, else the failure text |
| CodeExplainer.FinalCheckOnlyAfterTimeout | forza-main/src/components/CodeExplainer/CodeExplainer.tsx:145-158 | the final check happens exactly when none of the forty responses was decisive |
| CodeExplainer.ReplaceNewlines | forza-main/src/components/CodeExplainer/CodeExplainer.tsx:351 | no newline survives, and text without one is unchanged |
| CodeExplainer.ReplaceNewlinesAppend | forza-main/src/components/CodeExplainer/CodeExplainer.tsx:351 | the replacement works piece by piece |
| CodeExplainer.FindClose | forza-main/src/components/CodeExplainer/CodeExplainer.tsx:351 | the lazy `(.*?)` stops at the first closing `**` on the same line; when it fails, every later `**` lies past a line terminator |
| CodeExplainer.BoldFrom | forza-main/src/components/CodeExplainer/CodeExplainer.tsx:351 | from a position with no `**` after it, the rest of the text is kept as it is |
| CodeExplainer.ReplaceBold | forza-main/src/components/CodeExplainer/CodeExplainer.tsx:351 | the `**(.*?)**` replacement leaves text without `**` unchanged |
| CodeExplainer.BoldWraps | forza-main/src/components/CodeExplainer/CodeExplainer.tsx:351 | `**w**` becomes `<strong>w</strong>` for any single-line w without `**` inside that does not end in `*` |
| CodeExplainer.BoldFromKeepsNoNewline | forza-main/src/components/CodeExplainer/CodeExplainer.tsx:351 | the bold replacement brings no newline back |
| CodeExplainer.ExplanationHtml | forza-main/src/components/CodeExplainer/CodeExplainer.tsx:351 | the rendered HTML has no newline, and text with neither newline nor `**` renders as itself |
| CodeExplainer.Explainer.constructor | forza-main/src/components/CodeExplainer/CodeExplainer.tsx:31-36 | the component starts with empty code, JavaScript selected, the code tab shown and nothing pending |
| CodeExplainer.Explainer.ButtonLabel | forza-main/src/components/CodeExplainer/CodeExplainer.tsx:257 | the picker always shows a real language label |
| CodeExplainer.Explainer.EditCode | forza-main/src/components/CodeExplainer/CodeExplainer.tsx:31 | editing replaces the code and nothing else |
| CodeExplainer.Explainer.ToggleDropdown | forza-main/src/components/CodeExplainer/CodeExplainer.tsx:254 | the picker button flips the list |
| CodeExplainer.Explainer.MouseDown | forza-main/src/components/CodeExplainer/CodeExplainer.tsx:42-52 | a click outside the picker closes its list; any other click leaves it alone |
| CodeExplainer.Explainer.SelectLanguage | forza-main/src/components/CodeExplainer/CodeExplainer.tsx:268-271 | picking an entry selects its value, closes the list and shows its label |
| CodeExplainer.Explainer.SelectTab | forza-main/src/components/CodeExplainer/CodeExplainer.tsx:36 | switching tabs changes only the tab |
| CodeExplainer.Explainer.StartExplain | forza-main/src/components/CodeExplainer/CodeExplainer.tsx:54-80 | blank code changes nothing; otherwise the explainer is busy, shows the explanation tab and sends the payload for the current language and code |
| CodeExplainer.Explainer.FinishExplain | forza-main/src/components/CodeExplainer/CodeExplainer.tsx:160-166 | the explanation becomes `ExplainResult` and the explainer is no longer busy |
| MarketData.MatchesQuery | src/components/Home/MarketData.tsx:186-187 | an empty query matches every coin, and so does the coin's own symbol in any case |
| MarketData.Filter | src/components/Home/MarketData.tsx:184-188 | the filter never adds rows |
| MarketData.FilterSound | src/components/Home/MarketData.tsx:184-188 | every shown coin is listed and matches the query in its name or symbol, ignoring case |
| MarketData.FilterComplete | src/components/Home/MarketData.tsx:184-188 | every listed coin that matches is shown |
| MarketData.FilterAppend | src/components/Home/MarketData.tsx:184-188 | the filter keeps table order |
| MarketData.EmptyQueryShowsAll | src/components/Home/MarketData.tsx:184-188 | an empty query shows every coin |
| MarketData.CoinSearch | src/components/Home/MarketData.tsx:184-188 | the query "coin" shows exactly Bitcoin, Binance Coin and Dogecoin, in that order |
| MarketData.ChangeBadge | src/components/Home/MarketData.tsx:293-300 | the arrow points up exactly for a positive change, and the magnitude is non-negative |
| MarketData.ChangeBadgeRoundTrip | src/components/Home/MarketData.tsx:293-300 | arrow and magnitude together recover the change |
| MarketData.TableRows | src/components/Home/MarketData.tsx:272-280 | one row per filtered coin |
| MarketData.CharAt | src/components/Home/MarketData.tsx:284 | `charAt(i)` is the one-character string at i, or the empty string past the end |
| MarketData.RowNumbering | src/components/Home/MarketData.tsx:272-280 | rows are numbered 1, 2, … in filtered order |
| MarketData.NotationFor | src/components/Home/MarketData.tsx:194 | compact notation is used exactly above one million |
| MarketData.ListedNotations | src/components/Home/MarketData.tsx:20-94 | every listed price is in standard notation and every market cap and volume is compact |
| MarketData.Series | src/components/Home/MarketData.tsx:97-178 | a series is eight points labelled Jan to Aug |
| MarketData.LookupChart | src/components/Home/MarketData.tsx:202-215 | the lookup finds the series of an entry with that key, and fails only when there is none |
| MarketData.FallbackValues | src/components/Home/MarketData.tsx:203-213 | the fallback series runs from 70% of the price to the price itself and stays at or below it |
| MarketData.ChartFor | src/components/Home/MarketData.tsx:199-216 | every coin gets eight chart points |
| MarketData.EveryListedCoinHasChart | src/components/Home/MarketData.tsx:199-216 | every listed coin's lower-cased name finds its own series, so the fallback is never used for them |
| MarketData.ChartKeysMatchNames | src/components/Home/MarketData.tsx:97-178 | the chart keys are the lower-cased coin names, in table order |
| MarketData.ChartKeysDistinct | src/components/Home/MarketData.tsx:97-178 | no two chart keys coincide, and each series has eight values |
| MarketData.LookupChartOfEntry | src/components/Home/MarketData.tsx:215 | with distinct keys, looking up an entry's key gives that entry's series |
| MarketData.Round | src/components/Home/MarketData.tsx:373 | `Math.round` gives the nearest integer, with halves rounded up |
| MarketData.TickLabel | src/components/Home/MarketData.tsx:371-375 | ticks are shown in thousands exactly for a coin priced above 1000; otherwise the raw value is shown |
| MarketData.MarketView.constructor | src/components/Home/MarketData.tsx:181-182 | the view starts with an empty query and Bitcoin selected |
| MarketData.MarketView.Visible | src/components/Home/MarketData.tsx:184-188 | the visible rows are listed coins matching the current query |
| MarketData.MarketView.Search | src/components/Home/MarketData.tsx:181 | searching replaces the query and keeps the selection |
| MarketData.MarketView.ClickRow | src/components/Home/MarketData.tsx:276 | clicking row k selects the coin shown on that row |
| MarketData.MarketView.SelectedChart | src/components/Home/MarketData.tsx:199-216 | the selected coin is always listed and its chart is its own series |
| Url.Utf8 | src/hooks/useAuthRedirect.ts:9 | a character takes one to four UTF-8 bytes, and one byte exactly for ASCII |
| Url.HexRoundTrip | src/hooks/useAuthRedirect.ts:9 | reading a written hexadecimal digit gives back its value |
| Url.PercentBytes | src/hooks/useAuthRedirect.ts:9 | each byte becomes three characters, each `%` or an ASCII letter or digit |
| Url.EncodeChar | src/hooks/useAuthRedirect.ts:9 | an encoded character holds only unreserved characters and `%` |
| Url.EncodeURIComponent | src/hooks/useAuthRedirect.ts:9 | the encoding holds only unreserved characters and `%` (so no `&`, `=`, `#`, `?` or `+`), and is empty only for the empty string |
| Url.EncodeUnreserved | src/hooks/useAuthRedirect.ts:9 | a string of unreserved characters encodes to itself |
| Url.DecodeFirstOfUtf8 | src/components/Auth/LoginForm.tsx:16-17 | the UTF-8 bytes of a character decode back to it |
| Url.DecodeUtf8RoundTrip | src/components/Auth/LoginForm.tsx:16-17 | UTF-8 decoding inverts UTF-8 encoding |
| Url.FormBytesOfPercent | src/components/Auth/LoginForm.tsx:16-17 | `%XX` triples are read back as the bytes they spell |
| Url.FormBytesOfEncoding | src/components/Auth/LoginForm.tsx:16-17 | percent-decoding an encoded string gives the UTF-8 bytes of the original |
| Url.FormDecodeOfEncoding | src/components/Auth/LoginForm.tsx:16-17 | form decoding inverts `encodeURIComponent` |
| Url.IndexOf | src/components/Auth/LoginForm.tsx:16-17 | the first occurrence of a character, or the length when there is none |
| Url.IndexOfIs | src/components/Auth/LoginForm.tsx:16-17 | the first occurrence is the only position with that property |
| Url.IndexOfAppend | src/components/Auth/LoginForm.tsx:16-17 | a concatenation is searched first part first |
| Url.IndexOfInEncoded | src/hooks/useAuthRedirect.ts:9 | an encoded value contains no reserved separator |
| Url.QueryEncode | src/hooks/useAuthRedirect.ts:9 | the URL parser's stored query drops nothing, so it is never shorter than the query given |
| Url.QueryEncodeClean | src/hooks/useAuthRedirect.ts:9 | the stored query holds no character of the special-query percent-encode set |
| Url.QueryEncodeKeepsClean | src/hooks/useAuthRedirect.ts:9 | a query without a character of that set is stored as it is |
| Url.QueryEncodeIdempotent | src/hooks/useAuthRedirect.ts:9 | storing a stored query again changes nothing |
| Url.QueryEncodeAppend | src/hooks/useAuthRedirect.ts:9 | the parser encodes a query piece by piece |
| Url.QuoteInEncoding | src/hooks/useAuthRedirect.ts:9 | an `encodeURIComponent` output holds a `'` exactly when its input does |
| Url.QueryEncodeOfEncoding | src/hooks/useAuthRedirect.ts:9 | the parser leaves an encoded value unchanged exactly when the original holds no `'` |
| Url.FormBytesOfQueryEncoding | src/components/Auth/LoginForm.tsx:16-17 | percent-decoding the stored form of an encoding gives the UTF-8 bytes of the original (`%27` spells `'`) |
| Url.FormDecodeOfQueryEncoding | src/components/Auth/LoginForm.tsx:16-17 | form decoding inverts `encodeURIComponent` followed by the parser's query encoding |
| Url.PathAndSearch | src/hooks/useAuthRedirect.ts:9 | a target `path?query` opens `path` with `search` equal to `?` and the stored form of `query` |
| Url.WithQuerySplits | src/hooks/useAuthRedirect.ts:9 | a target with one encoded query field opens the base path, and `search` is `?name=` followed by the stored form of the encoded value |
| Url.QueryGetOfEncoded | src/components/Auth/LoginForm.tsx:16-17 | `get` of a field stored as `name=` and the stored form of `encodeURIComponent(v)` gives back exactly v |
| Auth.Window.constructor | src/hooks/useAuthRedirect.ts:5-9 | a window starts at a location with the given storage and no pending navigation |
| Auth.LoggedIn | src/hooks/useAuthRedirect.ts:5 | signed in exactly when the stored flag is the string "true"; a missing flag means signed out |
| Auth.GetItem | src/hooks/useAuthRedirect.ts:5 | `getItem` yields the stored value, or null for a missing key |
| Auth.FlagWrites | src/components/Header.tsx:61-71 | writing "true" signs in, and removing the flag signs out |
| Auth.LoginRedirect | src/hooks/useAuthRedirect.ts:9 | the login target starts with "/login" |
| Auth.LoginRedirectSplits | src/hooks/useAuthRedirect.ts:9 | the target opens the login page with `search` `?redirect=` and the stored form of the encoded path, which is the encoded path itself exactly when the path holds no `'` |
| Auth.LoginRedirectRoundTrip | src/hooks/useAuthRedirect.ts:8-9 | the login page reads back exactly the visitor's path as `redirect`, whatever characters it holds |
| Auth.LoginRedirectInjective | src/hooks/useAuthRedirect.ts:9 | different paths never share a login target |
| Auth.RedirectTarget | src/components/Auth/LoginForm.tsx:13-20 | the destination is non-empty: the `redirect` value, or "/chat" |
| Auth.LoginReturnsToPath | src/hooks/useAuthRedirect.ts:8-9 | a visitor sent to log in from a (non-empty) path comes back to that path |
| Auth.PlainLoginLandsOnChat | forza-main/src/components/Auth/LoginPage.tsx:11-14 | a login page without a query sends on to "/chat" |
| Auth.UseAuthRedirect | src/hooks/useAuthRedirect.ts:3-11 | a signed-out visitor is sent to the login target for the current path; a signed-in one stays; nothing else changes |
| Auth.MountLoginPage | forza-main/src/components/Auth/LoginPage.tsx:7-16 | a signed-in visitor is sent to the redirect target (falling back to "/chat", as the form does); a signed-out one stays |
| Login.Delay | src/components/Auth/LoginForm.tsx:29-45 | only a pending callback has a delay |
| Login.LoginForm.constructor | src/components/Auth/LoginForm.tsx:9-13 | the form starts empty, idle, without error and with "/chat" as its target |
| Login.LoginForm.Mount | src/components/Auth/LoginForm.tsx:15-21 | a present, non-empty `redirect` parameter replaces the target, so a fresh form's target is `RedirectTarget` |
| Login.LoginForm.TypeEmail | src/components/Auth/LoginForm.tsx:110 | typing replaces the address and nothing else |
| Login.LoginForm.Submit | src/components/Auth/LoginForm.tsx:23-46 | a submit clears the error, starts loading and schedules the rejection (no `@`) or the acceptance with the current target |
| Login.LoginForm.FireTimer | src/components/Auth/LoginForm.tsx:29-45 | rejection shows the error and stops loading; acceptance stops loading, succeeds and stores the flag; navigation moves to the target; success is never undone |
| Login.LoginForm.SubmitAndWait | src/components/Auth/LoginForm.tsx:23-46 | a whole submission: with `@` the visitor is signed in and sent to the target after 3000 ms; without it the error appears after 800 ms and neither flag nor location changes |
| SiteHeader.ActionTarget | src/components/Header.tsx:53-64 | every action leads somewhere, and only logout leads to "/" |
| SiteHeader.ActionTargetsDistinct | src/components/Header.tsx:53-64 | distinct actions lead to distinct pages |
| SiteHeader.NavLinksReachChat | src/components/Header.tsx:76-82 | five links with distinct targets, one of them the chat page |
| SiteHeader.AuthSection | src/components/Header.tsx:119-138 | the e-mail form shows exactly when signed out; "Open AI Chat" shows exactly when signed in and not on the chat page |
| SiteHeader.Header.constructor | src/components/Header.tsx:12-16 | the header starts unscrolled, signed out, off the chat page, menu closed |
| SiteHeader.Header.Scroll | src/components/Header.tsx:18-25 | the header is styled as scrolled exactly past 10 px |
| SiteHeader.Header.Mount | src/components/Header.tsx:33-38 | signed in exactly when the flag is "true"; on the chat page exactly at "/chat" |
| SiteHeader.Header.ToggleMenu | src/components/Header.tsx:144 | the menu button flips the menu |
| SiteHeader.Header.MouseDown | src/components/Header.tsx:40-51 | a click outside closes an open menu; any other click leaves it alone |
| SiteHeader.Header.HandleAuth | src/components/Header.tsx:53-66 | each action navigates to its page and closes the menu; logout also removes the flag and the signed-in state |
| SiteHeader.Header.TypeEmail | src/components/Header.tsx:132 | typing replaces the address and nothing else |
| SiteHeader.Header.EmailSubmit | src/components/Header.tsx:68-74 | a non-empty address with `@` signs in and opens the chat; any other changes nothing |
| SiteHeader.Header.NavClick | src/components/Header.tsx:84-87 | a menu link closes the menu and navigates to its target |
| Home.GetStartedTarget | src/components/Home/Hero.tsx:16-22 | the button leads to "/chat" exactly when signed in, and to "/login" otherwise |
| Home.ButtonLabel | src/components/Home/Hero.tsx:202 | the label is "Open AI Chat" exactly when signed in, and "Get Started" otherwise |
| Home.GetStartedEndsOnChat | src/components/Home/Hero.tsx:16-22 | a signed-in visitor ends on "/chat", directly or through the login page, which forwards a parameterless visit to "/chat" |
| Home.Hero.constructor | src/components/Home/Hero.tsx:9 | before its mount effect the section treats the visitor as signed out |
| Home.Hero.Mount | src/components/Home/Hero.tsx:11-14 | signed in exactly when the flag is "true" |
| Home.Hero.GetStarted | src/components/Home/Hero.tsx:16-22 | the button navigates to `GetStartedTarget` and changes nothing else |

## Left out

- **Network.** The `fetch` calls to the AI service are not made. Instead:
  - Each POST is a `PostResult`.
  - Each status request is a `PollResult`. `Rejected` stands for a request or
    JSON body that throws, `HttpError` for a non-OK status, and `Status` for
    a parsed body.
  - The caller must supply at least as many poll results as the loop can
    consume: ten for the chat, and forty plus the final check for the code
    explainer. That requirement is about the model's environment, not the
    source.
- **Timers.** `setTimeout` delays become explicit steps. Their lengths are
  counted in milliseconds. React's batching and effect order are not modelled.
- **Overlapping sends.** These are excluded the way the page excludes them:
  - `Submit` requires `!isTyping` (input and button are disabled,
    ChatInterface.tsx:593, 598).
  - `StartExplain` requires `!isExplaining` (CodeExplainer.tsx:326).
  - The login `Submit` requires it is not loading (LoginForm.tsx:121) and has
    not succeeded (the form is gone, LoginForm.tsx:48).
- **Randomness.** The chart reply's random bars and indicators
  (`generateChartData`, ChatInterface.tsx:135-157) are not modelled. Its
  random price and change are parameters.
- **Formatting.** Number, currency and date formatting (`Intl.NumberFormat`,
  `toFixed`, date-fns) is library code. Only the notation choice is kept.
  Prices are real numbers, not IEEE doubles.
- Text.Lower: maps only ASCII letters, so a non-ASCII upper-case letter in a
  search query is not folded. `Text.Upper` is the same for `toUpperCase`.
  The matched symbols are ASCII, so the intent patterns are unaffected.
- Chat.PreviewText: counts Unicode scalar values, where `substring(0, 40)`
  counts UTF-16 code units. The two differ only for characters outside the
  Basic Multilingual Plane.
- Url.DecodeUtf8RoundTrip: `DecodeUtf8` puts one U+FFFD in place of each ill-formed
  byte. The WHATWG decoder uses one per maximal ill-formed subpart. The
  difference shows only for malformed queries, never for the output of
  `encodeURIComponent`.
- Url.PathAndSearch: of the URL parser's rewriting of a navigation target,
  only the special-query percent-encoding of the query (`QueryEncode`) is
  modelled. Among the characters `encodeURIComponent` emits it touches only
  `'`, which is stored as `%27` and still decodes back to `'`. The parser's
  removal of tabs and newlines, the percent-encoding of the path and the
  normalisation of `.` and `..` segments are not modelled: `PathOf` returns
  the path as given.
- Chat.ChatSession.Submit: one clock reading `now` gives both the user
  message's id and, plus one, the chart reply's id. The page reads
  `Date.now()` separately for each (ChatInterface.tsx lines 232 and 258), so
  a later second reading is not modelled. `Chat.ChatSession.Dispatch` is the
  same.
- **Browser validation.** The email inputs use `type="email" required`. The
  browser's own checks can keep a submission from reaching the handler; they
  are not modelled. The handlers are modelled for every address.
- **Not reproduced.** The chat's system instructions
  (`src/lib/ai-instructions.ts`) are a constructor parameter; that file is not
  part of this model.
- **Left out because nothing depends on them:**
  - console logging;
  - `rateLimitInfo`, which is never set;
  - copy-to-clipboard;
  - scrolling and focus effects;
  - adding and removing event listeners (their handlers are modelled);
  - animations;
  - the HTML-injection risk of rendering the explanation as HTML.
- **Outside the core.** These are not part of this model: the pop-up
  `Chatbot.tsx`, whose modal never opens; the static pages (`Utilities.tsx`,
  `Features.tsx`, `Footer.tsx`, `App.tsx` and the page wrappers).
