/** The chat page's conversation: the message list, the send handler with its
    two branches (a chart reply chosen by the intent patterns, or a question
    forwarded to the AI service and polled for up to ten attempts), the
    suggestion buttons and the "Recent Activity" previews.

    A send runs in two phases, as the asynchronous handler does. `Submit` is
    the synchronous part, up to the first `await`: it appends the user's
    message, clears the input and either schedules the chart reply (whose
    1.5-second timer is `FireChartTimer`) or sends the request.
    `CompleteRequest` is the rest: the POST, the polling loop and the
    `finally` block. The clock readings, the service's responses and the
    random price of a chart reply are parameters. */
module Chat {
  import opened Text
  import opened Options
  import opened ChatIntent
  import opened AiService

  datatype Sender = User | Ai

  datatype ChartType = PriceChart | AnalysisChart

  /** The coin card attached to a chart reply; the randomly generated bars
      and indicators are not modelled. */
  datatype CoinData = CoinData(symbol: string, name: string, price: real, change24h: real, chartType: ChartType)

  /** A message; `coin` is present exactly on chart replies (`isChart`). */
  datatype Message = Message(id: string, content: string, sender: Sender, timestamp: nat, coin: Option<CoinData>)

  const WelcomeId := "welcome"
  const WelcomeText := "Hello! I'm your Forza AI assistant. How can I help you with cryptocurrency today?"
  const DefaultReply := "Sorry, I couldn't process your request at the moment."
  const ConnectionErrorReply := "Sorry, I'm having trouble connecting to my knowledge base. Please try again later."
  const MaxAttempts := 10
  const PollDelay := 1000
  const HttpErrorDelay := 2000
  const ChartDelay := 1500

  const TopicSuggestions := [
    "What is Forza AI?",
    "How to buy Bitcoin?",
    "Explain DeFi to a beginner",
    "What are NFTs?",
    "Current market trends",
    "Crypto portfolio advice",
    "What are gas fees?",
    "How to stake crypto?"
  ]

  function Welcome(now: nat): Message {
    Message(WelcomeId, WelcomeText, Ai, now, None)
  }

  /** A message id is never the welcome id: ids are clock readings in decimal. */
  lemma ClockIdIsNotWelcome(n: nat)
    ensures NatToString(n) != WelcomeId
  {
    assert IsAsciiDigit(NatToString(n)[0]);
  }

  /** The reply scheduled for a chart request. */
  function ChartReply(now: nat, symbol: string, isAnalysis: bool, price: real, change: real): (m: Message)
    ensures m.sender == Ai && m.coin.Some? && m.coin.value.symbol == symbol
    ensures m.coin.value.name == symbol + " Coin"
    ensures m.coin.value.chartType == (if isAnalysis then AnalysisChart else PriceChart)
    ensures m.id == NatToString(now + 1) && m.id != WelcomeId
    ensures m.content == (if isAnalysis then "Here's the technical analysis for $" else "Here's the price chart for $") + symbol + ":"
    ensures m.coin.value.price == price && m.coin.value.change24h == change && m.timestamp == now
  {
    ClockIdIsNotWelcome(now + 1);
    Message(
      NatToString(now + 1),
      (if isAnalysis then "Here's the technical analysis for $" else "Here's the price chart for $") + symbol + ":",
      Ai, now,
      Some(CoinData(symbol, symbol + " Coin", price, change, if isAnalysis then AnalysisChart else PriceChart)))
  }

  // ---------------------------------------------------------------- history

  /** The API turn of a message: the AI's messages are `assistant` turns,
      the user's are `user` turns, and the text is kept. */
  function TurnOf(m: Message): (t: Turn)
    ensures t.role == Assistant <==> m.sender == Ai
    ensures t.content == m.content
  {
    Turn(if m.sender == Ai then Assistant else UserRole, m.content)
  }

  /** The conversation as sent: every message except the welcome message,
      in order, with the AI's messages as `assistant` turns. A conversation
      without the welcome message maps message by message. */
  function History(ms: seq<Message>): (h: seq<Turn>)
    ensures |h| <= |ms|
    ensures (forall i :: 0 <= i < |ms| ==> ms[i].id != WelcomeId) ==>
      h == seq(|ms|, i requires 0 <= i < |ms| => TurnOf(ms[i]))
  {
    if ms == [] then []
    else
      var m := ms[|ms| - 1];
      var h := History(ms[..|ms| - 1]) + (if m.id == WelcomeId then [] else [TurnOf(m)]);
      assert (forall i :: 0 <= i < |ms| ==> ms[i].id != WelcomeId) ==>
        h == seq(|ms|, i requires 0 <= i < |ms| => TurnOf(ms[i])) by {
        if forall i :: 0 <= i < |ms| ==> ms[i].id != WelcomeId {
          assert forall i :: 0 <= i < |ms| - 1 ==> ms[..|ms| - 1][i] == ms[i];
        }
      }
      h
  }

  /** The history of a concatenation is the concatenation of the histories. */
  lemma {:induction false} HistoryConcat(a: seq<Message>, b: seq<Message>)
    ensures History(a + b) == History(a) + History(b)
    decreases |b|
  {
    if b == [] {
      assert a + b == a;
    } else {
      var b' := b[..|b| - 1];
      HistoryConcat(a, b');
      assert (a + b)[..|a + b| - 1] == a + b';
      assert (a + b)[|a + b| - 1] == b[|b| - 1];
    }
  }

  /** Appending a message leaves the history as it was exactly when the
      message is the welcome message; any other message adds its turn. */
  lemma HistoryAppend(ms: seq<Message>, m: Message)
    ensures History(ms + [m]) == History(ms) <==> m.id == WelcomeId
    ensures m.id != WelcomeId ==> History(ms + [m]) == History(ms) + [TurnOf(m)]
  {
    HistoryConcat(ms, [m]);
    assert [m][..0] == [];
  }

  /** With the welcome message first and nowhere else, the history is the
      turns of the other messages, in order. */
  lemma HistoryClosedForm(ms: seq<Message>)
    requires |ms| >= 1 && ms[0].id == WelcomeId
    requires forall i :: 1 <= i < |ms| ==> ms[i].id != WelcomeId
    ensures History(ms) == seq(|ms| - 1, i requires 0 <= i < |ms| - 1 => TurnOf(ms[i + 1]))
  {
    var rest := ms[1..];
    assert ms == [ms[0]] + rest;
    HistoryConcat([ms[0]], rest);
    assert [ms[0]][..0] == [];
  }

  /** When only the first message is the welcome message, the history holds
      one turn for each of the others, so the first question goes out with
      an empty history. */
  lemma {:induction false} HistoryLength(ms: seq<Message>)
    requires |ms| >= 1 && ms[0].id == WelcomeId
    requires forall i :: 1 <= i < |ms| ==> ms[i].id != WelcomeId
    ensures |History(ms)| == |ms| - 1
    decreases |ms|
  {
    if |ms| > 1 {
      HistoryLength(ms[..|ms| - 1]);
    } else {
      assert ms[..0] == [];
    }
  }

  /** The body sent for `prompt`, given the messages on screen before it was
      submitted and the system instructions. */
  function BuildPayload(instructions: string, prior: seq<Message>, prompt: string): (p: Payload)
    ensures |p.messages| == |History(prior)| + 1
    ensures p.messages[0] == Turn(Assistant, instructions) && p.messages[1..] == History(prior)
    ensures p.prompt == prompt && p.model == "GPT-4" && !p.markdown
  {
    Payload([Turn(Assistant, instructions)] + History(prior), prompt, "GPT-4", false)
  }

  // ---------------------------------------------------------------- reply

  /** The AI message text a request ends with. */
  function ReplyText(post: PostResult, polls: seq<PollResult>): (text: string)
    requires |polls| >= MaxAttempts
    ensures text != ""
  {
    if post.PostFailed? || post.taskId == "" then ConnectionErrorReply
    else
      var run := Poll(polls, MaxAttempts, 0);
      PollAnswer(polls, MaxAttempts, 0);
      if run.end == Threw then ConnectionErrorReply else run.answer.GetOr(DefaultReply)
  }

  /** A request whose POST fails or carries no task id, or whose polling
      throws, ends with the connection-error text. */
  lemma ReplyTextFailure(post: PostResult, polls: seq<PollResult>)
    requires |polls| >= MaxAttempts
    requires post.PostFailed? || post.taskId == "" || Poll(polls, MaxAttempts, 0).end == Threw
    ensures ReplyText(post, polls) == ConnectionErrorReply
  {
  }

  /** Otherwise the reply is the `gpt` text of the `completed` status that
      stopped the loop if it has one, and the default text after a timeout,
      an `error` or `not_found` status, or a `completed` status without text. */
  lemma ReplyTextAnswer(post: PostResult, polls: seq<PollResult>)
    requires |polls| >= MaxAttempts
    requires post.PostAccepted? && post.taskId != ""
    requires Poll(polls, MaxAttempts, 0).end != Threw
    ensures var run := Poll(polls, MaxAttempts, 0);
      run.end == Settled ==> polls[run.attempts - 1].Status?
    ensures var run := Poll(polls, MaxAttempts, 0);
      if run.end == Settled && polls[run.attempts - 1].status == "completed" && polls[run.attempts - 1].gpt != ""
      then ReplyText(post, polls) == polls[run.attempts - 1].gpt
      else ReplyText(post, polls) == DefaultReply
  {
    var run := Poll(polls, MaxAttempts, 0);
    PollBounds(polls, MaxAttempts, 0);
    PollAnswer(polls, MaxAttempts, 0);
    assert ReplyText(post, polls) == run.answer.GetOr(DefaultReply);
  }

  /** A reply arrives within ten attempts: at most 10 seconds of polling
      delay plus 2 seconds for every HTTP error, so at most 30 seconds. */
  lemma PollingTimeBound(polls: seq<PollResult>)
    requires |polls| >= MaxAttempts
    ensures var run := Poll(polls, MaxAttempts, 0);
      PollDelay * run.attempts + HttpErrorDelay * run.httpErrors <= 30000
  {
    PollCountsHttpErrors(polls, MaxAttempts, 0);
  }

  /** The polling loop of the send handler: `threw` when a request or body
      escaped to the `catch`, otherwise the text it settled on; `waited` is
      the time spent in its timers. */
  method PollTask(polls: seq<PollResult>) returns (threw: bool, text: string, attempts: nat, waited: nat)
    requires |polls| >= MaxAttempts
    ensures var run := Poll(polls, MaxAttempts, 0);
      && threw == (run.end == Threw)
      && attempts == run.attempts
      && (!threw ==> text == run.answer.GetOr(DefaultReply))
      && waited == PollDelay * run.attempts + HttpErrorDelay * run.httpErrors
  {
    text := DefaultReply;
    var isCompleted := false;
    attempts := 0;
    waited := 0;
    threw := false;
    var errs := 0;
    while !isCompleted && attempts < MaxAttempts
      invariant attempts <= MaxAttempts
      invariant waited == PollDelay * attempts + HttpErrorDelay * errs
      invariant !isCompleted ==> text == DefaultReply && Poll(polls, MaxAttempts, 0) == Resume(polls, MaxAttempts, attempts, errs)
      invariant isCompleted ==>
        var run := Poll(polls, MaxAttempts, 0);
        run.end == Settled && run.attempts == attempts && run.httpErrors == errs
        && text == run.answer.GetOr(DefaultReply)
    {
      attempts := attempts + 1;
      waited := waited + PollDelay;
      match polls[attempts - 1]
      case Rejected =>
        assert Resume(polls, MaxAttempts, attempts - 1, errs) == PollRun(Threw, attempts, None, errs);
        threw := true;
        return;
      case HttpError =>
        assert Resume(polls, MaxAttempts, attempts - 1, errs) == Resume(polls, MaxAttempts, attempts, errs + 1);
        waited := waited + HttpErrorDelay;
        errs := errs + 1;
      case Status(status, gpt) =>
        if status == "completed" {
          assert Resume(polls, MaxAttempts, attempts - 1, errs)
            == PollRun(Settled, attempts, if gpt != "" then Some(gpt) else None, errs);
          isCompleted := true;
          if gpt != "" {
            text := gpt;
          }
        } else if status == "error" || status == "not_found" {
          assert Resume(polls, MaxAttempts, attempts - 1, errs) == PollRun(Settled, attempts, None, errs);
          isCompleted := true;
        } else {
          assert Resume(polls, MaxAttempts, attempts - 1, errs) == Resume(polls, MaxAttempts, attempts, errs);
        }
    }
  }

  // ---------------------------------------------------------------- previews

  /** A "Recent Activity" line: who sent it and at most forty characters of
      its text, with an ellipsis when more was cut. */
  datatype PreviewLine = PreviewLine(sender: Sender, text: string)

  function PreviewText(content: string): (t: string)
    ensures |content| <= 40 ==> t == content
    ensures |content| > 40 <==> |t| == 43
    ensures |t| == 43 ==> t[..40] == content[..40] && t[40..] == "..."
  {
    content[..if |content| < 40 then |content| else 40] + (if |content| > 40 then "..." else "")
  }

  /** The previews of the three most recent messages, oldest first. */
  function RecentActivity(ms: seq<Message>): (r: seq<PreviewLine>)
    ensures |r| == if |ms| < 3 then |ms| else 3
    ensures forall i :: 0 <= i < |r| ==>
      r[i] == PreviewLine(ms[|ms| - |r| + i].sender, PreviewText(ms[|ms| - |r| + i].content))
  {
    var recent := ms[if |ms| < 3 then 0 else |ms| - 3..];
    seq(|recent|, i requires 0 <= i < |recent| => PreviewLine(recent[i].sender, PreviewText(recent[i].content)))
  }

  // ---------------------------------------------------------------- session

  class ChatSession {
    /** The system instructions sent as the first turn of every request. */
    const instructions: string
    var messages: seq<Message>
    var input: string
    var isTyping: bool
    /** Chart replies whose 1.5-second timer has not fired yet, in the order
        they were scheduled (all timers have the same delay). */
    var pendingCharts: seq<Message>
    /** Requests sent and not yet finished. */
    var inFlight: seq<Payload>

    ghost predicate Valid()
      reads this
    {
      && |messages| >= 1 && messages[0].id == WelcomeId
      && (forall i :: 1 <= i < |messages| ==> messages[i].id != WelcomeId)
      && (forall i :: 0 <= i < |pendingCharts| ==> pendingCharts[i].id != WelcomeId)
      && (isTyping ==> inFlight != [])
    }

    constructor(instructions: string, now: nat)
      ensures Valid()
      ensures this.instructions == instructions
      ensures messages == [Welcome(now)] && input == "" && !isTyping
      ensures pendingCharts == [] && inFlight == []
    {
      this.instructions := instructions;
      messages := [Welcome(now)];
      input := "";
      isTyping := false;
      pendingCharts := [];
      inFlight := [];
    }

    /** Typing into the input box. */
    method TypeInput(text: string)
      requires Valid()
      modifies this
      ensures Valid()
      ensures input == text
      ensures messages == old(messages) && isTyping == old(isTyping)
      ensures pendingCharts == old(pendingCharts) && inFlight == old(inFlight)
    {
      input := text;
    }

    /** Clicking a suggested question puts it in the input box. */
    method ChooseSuggestion(i: nat)
      requires Valid()
      requires i < |TopicSuggestions|
      modifies this
      ensures Valid()
      ensures input == TopicSuggestions[i] && !IsBlank(input)
      ensures messages == old(messages) && isTyping == old(isTyping)
      ensures pendingCharts == old(pendingCharts) && inFlight == old(inFlight)
    {
      input := TopicSuggestions[i];
      assert input[0] != ' ' && !IsSpace(input[0]);
    }

    /** Submitting the form at clock reading `now`; `price` and `change`
        are the random draws for a chart reply. The input and the send
        button are disabled while `isTyping`. */
    method Submit(now: nat, price: real, change: real)
      requires Valid()
      requires !isTyping
      modifies this
      ensures Valid()
      ensures IsBlank(old(input)) ==>
        messages == old(messages) && input == old(input) && !isTyping
        && pendingCharts == old(pendingCharts) && inFlight == old(inFlight)
      ensures !IsBlank(old(input)) ==>
        && messages == old(messages) + [Message(NatToString(now), old(input), User, now, None)]
        && input == ""
        && (DetectIntent(old(input)).ChartRequest? ==>
             var intent := DetectIntent(old(input));
             && pendingCharts == old(pendingCharts) + [ChartReply(now, intent.symbol, intent.isAnalysis, price, change)]
             && !isTyping && inFlight == old(inFlight))
        && (DetectIntent(old(input)).Conversation? ==>
             && inFlight == old(inFlight) + [BuildPayload(instructions, old(messages), old(input))]
             && isTyping && pendingCharts == old(pendingCharts))
    {
      // `!input.trim()`, which holds exactly for blank input (TrimEmptyIffBlank)
      if IsBlank(input) {
        return;
      }
      var text := input;
      var prior := messages;
      ClockIdIsNotWelcome(now);
      messages := messages + [Message(NatToString(now), text, User, now, None)];
      input := "";
      Dispatch(DetectIntent(text), now, prior, text, price, change);
    }

    /** The branch of the send handler after the user's message is on
        screen and `isTyping` was set: schedule the chart reply, whose
        `return` inside `try` runs `finally` at once, or send the question
        with the history as it was before the message was added. */
    method Dispatch(intent: Intent, now: nat, prior: seq<Message>, text: string, price: real, change: real)
      requires Valid()
      modifies this
      ensures Valid()
      ensures messages == old(messages) && input == old(input)
      ensures intent.ChartRequest? ==>
        && pendingCharts == old(pendingCharts) + [ChartReply(now, intent.symbol, intent.isAnalysis, price, change)]
        && !isTyping && inFlight == old(inFlight)
      ensures intent.Conversation? ==>
        && inFlight == old(inFlight) + [BuildPayload(instructions, prior, text)]
        && isTyping && pendingCharts == old(pendingCharts)
    {
      match intent
      case ChartRequest(symbol, isAnalysis) =>
        pendingCharts := pendingCharts + [ChartReply(now, symbol, isAnalysis, price, change)];
        isTyping := false;
      case Conversation =>
        inFlight := inFlight + [BuildPayload(instructions, prior, text)];
        isTyping := true;
    }

    /** The 1.5-second timer of the oldest scheduled chart reply fires. */
    method FireChartTimer()
      requires Valid()
      requires pendingCharts != []
      modifies this
      ensures Valid()
      ensures messages == old(messages) + [old(pendingCharts)[0]]
      ensures pendingCharts == old(pendingCharts)[1..]
      ensures !isTyping && input == old(input) && inFlight == old(inFlight)
    {
      messages := messages + [pendingCharts[0]];
      pendingCharts := pendingCharts[1..];
      isTyping := false;
    }

    /** Request `j` finishes at clock reading `now`: `post` is the answer
        to its POST and `polls` the answers to its status requests. */
    method CompleteRequest(j: nat, now: nat, post: PostResult, polls: seq<PollResult>)
      requires Valid()
      requires j < |inFlight|
      requires |polls| >= MaxAttempts
      modifies this
      ensures Valid()
      ensures messages == old(messages) + [Message(NatToString(now + 1), ReplyText(post, polls), Ai, now, None)]
      ensures inFlight == old(inFlight)[..j] + old(inFlight)[j + 1..]
      ensures !isTyping && input == old(input) && pendingCharts == old(pendingCharts)
    {
      var text := ConnectionErrorReply;
      if post.PostAccepted? && post.taskId != "" {
        var threw, answer, attempts, waited := PollTask(polls);
        if !threw {
          text := answer;
        }
      }
      ClockIdIsNotWelcome(now + 1);
      messages := messages + [Message(NatToString(now + 1), text, Ai, now, None)];
      inFlight := inFlight[..j] + inFlight[j + 1..];
      isTyping := false;
    }

    /** The history the next question would be sent with: one turn for
        every message on screen except the welcome message. */
    lemma NextHistory()
      requires Valid()
      ensures |History(messages)| == |messages| - 1
    {
      HistoryLength(messages);
    }
  }
}
