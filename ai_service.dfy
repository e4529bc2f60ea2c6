/** The AI service both AI components talk to: the body of the POST that
    creates an AI job, and the job-polling protocol they follow once it has
    returned its id (up to `max` GET requests, one per attempt, stopping
    at the first response that settles the job). This module holds the
    specification of one polling run as a function of the responses the
    service returns; the loops themselves live with their components. */
module AiService {
  import opened Options

  datatype Role = Assistant | UserRole

  /** One entry of the `messages` array of a request. */
  datatype Turn = Turn(role: Role, content: string)

  /** The JSON body of the POST. */
  datatype Payload = Payload(messages: seq<Turn>, prompt: string, model: string, markdown: bool)

  /** What one status GET yields, as the loop sees it. `Rejected` is a
      request that throws or a body that is not JSON: both escape the loop to
      the component's `catch`. `HttpError` is a response whose `ok` is false.
      `Status` is a JSON body; an empty `gpt` stands for a missing or empty
      one (both are falsy). */
  datatype PollResult = Rejected | HttpError | Status(status: string, gpt: string)

  /** The initial POST: `PostFailed` covers a thrown request, a non-`ok`
      response and an unreadable body; an empty `taskId` is a missing id. */
  datatype PostResult = PostFailed | PostAccepted(taskId: string)

  /** How a polling run ended. */
  datatype PollEnd =
    | Settled     // a `completed`, `error` or `not_found` status stopped the loop
    | TimedOut    // `max` attempts were spent without one
    | Threw       // a request or a body threw out of the loop

  /** The observable result of a run: how it ended, how many attempts were
      counted, the answer text if a `completed` status carried a non-empty
      `gpt`, and how many attempts met an HTTP error (each of which costs an
      extra two-second wait). */
  datatype PollRun = PollRun(end: PollEnd, attempts: nat, answer: Option<string>, httpErrors: nat)

  /** A response that ends the loop. */
  predicate Decisive(p: PollResult) {
    p.Rejected? || (p.Status? && (p.status == "completed" || p.status == "error" || p.status == "not_found"))
  }

  /** Number of HTTP errors in a sequence of responses. */
  function CountHttpErrors(ps: seq<PollResult>): (n: nat)
    ensures n <= |ps|
  {
    if ps == [] then 0
    else CountHttpErrors(ps[..|ps| - 1]) + (if ps[|ps| - 1].HttpError? then 1 else 0)
  }

  /** The loop from attempt `k` on (`k` attempts already made, none of
      them decisive), where `polls[j]` is the response to the GET of attempt
      `j + 1`. */
  function Poll(polls: seq<PollResult>, max: nat, k: nat): (r: PollRun)
    requires k <= max <= |polls|
    ensures k <= r.attempts <= max
    decreases max - k
  {
    if k == max then PollRun(TimedOut, k, None, 0)
    else
      match polls[k]
      case Rejected => PollRun(Threw, k + 1, None, 0)
      case HttpError =>
        var rest := Poll(polls, max, k + 1);
        rest.(httpErrors := rest.httpErrors + 1)
      case Status(status, gpt) =>
        if status == "completed" then PollRun(Settled, k + 1, if gpt != "" then Some(gpt) else None, 0)
        else if status == "error" || status == "not_found" then PollRun(Settled, k + 1, None, 0)
        else Poll(polls, max, k + 1)
  }

  /** The loop of attempts `k + 1 ..` resumed after `errs` HTTP errors. */
  ghost function Resume(polls: seq<PollResult>, max: nat, k: nat, errs: nat): PollRun
    requires k <= max <= |polls|
  {
    var r := Poll(polls, max, k);
    r.(httpErrors := r.httpErrors + errs)
  }

  /** A run makes between one and `max` attempts after `k`, it times out
      only after exactly `max`, and it settles or throws at the last
      response it reads. */
  lemma {:induction false} PollBounds(polls: seq<PollResult>, max: nat, k: nat)
    requires k <= max <= |polls|
    ensures var r := Poll(polls, max, k);
      && k <= r.attempts <= max
      && (r.end == TimedOut <==> r.attempts == max && (k == max || !Decisive(polls[max - 1])))
      && (r.end != TimedOut ==> k < r.attempts && Decisive(polls[r.attempts - 1]))
      && (r.end == Threw <==> r.end != TimedOut && polls[r.attempts - 1].Rejected?)
    decreases max - k
  {
    if k < max && !Decisive(polls[k]) {
      PollBounds(polls, max, k + 1);
    }
  }

  /** The loop stops at the first decisive response: every earlier response
      is non-decisive, and when no response in range is decisive the run
      times out. */
  lemma {:induction false} PollStopsAtFirstDecisive(polls: seq<PollResult>, max: nat, k: nat)
    requires k <= max <= |polls|
    ensures var r := Poll(polls, max, k);
      && (forall j :: k <= j < r.attempts - 1 ==> !Decisive(polls[j]))
      && (r.end == TimedOut <==> forall j :: k <= j < max ==> !Decisive(polls[j]))
    decreases max - k
  {
    if k < max && !Decisive(polls[k]) {
      PollStopsAtFirstDecisive(polls, max, k + 1);
    }
  }

  /** The answer is exactly the non-empty `gpt` of a `completed` status at
      the last attempt; every other way of ending leaves no answer. */
  lemma {:induction false} PollAnswer(polls: seq<PollResult>, max: nat, k: nat)
    requires k <= max <= |polls|
    ensures var r := Poll(polls, max, k);
      r.answer.Some? <==>
        (r.end == Settled && polls[r.attempts - 1].Status?
         && polls[r.attempts - 1].status == "completed" && polls[r.attempts - 1].gpt != "")
    ensures var r := Poll(polls, max, k);
      r.answer.Some? ==> r.answer.value == polls[r.attempts - 1].gpt
    decreases max - k
  {
    PollBounds(polls, max, k);
    if k < max && !Decisive(polls[k]) {
      PollAnswer(polls, max, k + 1);
    }
  }

  /** `httpErrors` counts the HTTP errors among the responses read. */
  lemma {:induction false} PollCountsHttpErrors(polls: seq<PollResult>, max: nat, k: nat)
    requires k <= max <= |polls|
    ensures var r := Poll(polls, max, k);
      k <= r.attempts <= max && r.httpErrors == CountHttpErrors(polls[k..r.attempts])
    decreases max - k
  {
    PollBounds(polls, max, k);
    var r := Poll(polls, max, k);
    if k == max {
    } else if !Decisive(polls[k]) {
      PollCountsHttpErrors(polls, max, k + 1);
      var rest := Poll(polls, max, k + 1);
      CountsStep(polls, max, k, rest);
    } else {
      assert polls[k..r.attempts] == [polls[k]];
      assert polls[k..r.attempts][..0] == [];
    }
  }

  /** The step of `PollCountsHttpErrors` past a non-decisive answer. */
  lemma CountsStep(polls: seq<PollResult>, max: nat, k: nat, rest: PollRun)
    requires k < max <= |polls| && !Decisive(polls[k])
    requires rest == Poll(polls, max, k + 1)
    requires k + 1 <= rest.attempts <= max && rest.httpErrors == CountHttpErrors(polls[k + 1..rest.attempts])
    ensures var r := Poll(polls, max, k);
      r.attempts == rest.attempts && r.httpErrors == CountHttpErrors(polls[k..r.attempts])
  {
    CountHttpErrorsCons(polls[k], polls[k + 1..rest.attempts]);
    assert [polls[k]] + polls[k + 1..rest.attempts] == polls[k..rest.attempts];
  }

  lemma {:induction false} CountHttpErrorsCons(p: PollResult, ps: seq<PollResult>)
    ensures CountHttpErrors([p] + ps) == (if p.HttpError? then 1 else 0) + CountHttpErrors(ps)
    decreases |ps|
  {
    if ps == [] {
      assert ([p] + ps)[..0] == [];
    } else {
      assert ([p] + ps)[..|[p] + ps| - 1] == [p] + ps[..|ps| - 1];
      CountHttpErrorsCons(p, ps[..|ps| - 1]);
    }
  }
}
