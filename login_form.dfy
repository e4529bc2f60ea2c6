/** The login form: a mock sign-in that checks the address for an `@`,
    waits, stores the signed-in flag and then moves on to the redirect
    target. Each `setTimeout` it schedules is a pending `Timer` that the
    environment fires later with `FireTimer`. */
module Login {
  import opened Text
  import opened Options
  import opened Url
  import opened Auth

  const InvalidEmail := "Please enter a valid email address"
  const RejectDelay := 800
  const AcceptDelay := 1500
  const NavigateDelay := 1500

  /** The callback the form is waiting for, if any. `AcceptTimer` and
      `NavigateTimer` carry the redirect target the submit captured. */
  datatype Timer = Idle | RejectTimer | AcceptTimer(target: string) | NavigateTimer(target: string)

  /** The delay in milliseconds after which a pending callback fires. */
  function Delay(t: Timer): (ms: nat)
    ensures t.Idle? <==> ms == 0
  {
    match t
    case Idle => 0
    case RejectTimer => RejectDelay
    case AcceptTimer(_) => AcceptDelay
    case NavigateTimer(_) => NavigateDelay
  }

  class LoginForm {
    var email: string
    var isLoading: bool
    var isSuccess: bool
    var error: string
    var redirectUrl: string
    var timer: Timer

    /** Loading means a check callback is pending; success is reached only
        once, carries no error and ends the loading state. */
    predicate Valid()
      reads this
    {
      (isLoading <==> timer.RejectTimer? || timer.AcceptTimer?)
      && (timer.AcceptTimer? ==> error == [])
      && (timer.NavigateTimer? ==> isSuccess)
      && (isSuccess ==> !isLoading && error == [])
      && (error == [] || error == InvalidEmail)
    }

    constructor()
      ensures Valid()
      ensures email == [] && !isLoading && !isSuccess && error == []
      ensures redirectUrl == ChatPath && timer == Idle
    {
      email := [];
      isLoading := false;
      isSuccess := false;
      error := [];
      redirectUrl := ChatPath;
      timer := Idle;
    }

    /** The mount effect: a present, non-empty `redirect` parameter
        replaces the default target. */
    method Mount(w: Window)
      requires Valid()
      modifies this
      ensures Valid()
      ensures redirectUrl == if QueryGet(w.search, RedirectParam).Some? && QueryGet(w.search, RedirectParam).value != []
        then QueryGet(w.search, RedirectParam).value else old(redirectUrl)
      ensures old(redirectUrl) == ChatPath ==> redirectUrl == RedirectTarget(w.search)
      ensures email == old(email) && isLoading == old(isLoading) && isSuccess == old(isSuccess)
      ensures error == old(error) && timer == old(timer)
    {
      var redirect := QueryGet(w.search, RedirectParam);
      if redirect.Some? && redirect.value != [] {
        redirectUrl := redirect.value;
      }
    }

    method TypeEmail(value: string)
      requires Valid()
      modifies this
      ensures Valid()
      ensures email == value
      ensures isLoading == old(isLoading) && isSuccess == old(isSuccess) && error == old(error)
      ensures redirectUrl == old(redirectUrl) && timer == old(timer)
    {
      email := value;
    }

    /** `handleSubmit`: clears the error, starts loading and schedules the
        rejection or the acceptance. The button is disabled while loading
        and the form is gone after success, so neither holds here. */
    method Submit()
      requires Valid() && !isLoading && !isSuccess
      modifies this
      ensures Valid()
      ensures error == [] && isLoading && !isSuccess
      ensures timer == if ContainsChar(email, '@') then AcceptTimer(redirectUrl) else RejectTimer
      ensures email == old(email) && redirectUrl == old(redirectUrl)
    {
      error := [];
      isLoading := true;
      if !ContainsChar(email, '@') {
        timer := RejectTimer;
        return;
      }
      timer := AcceptTimer(redirectUrl);
    }

    /** The pending callback runs: a rejection shows the error, an
        acceptance stores the flag and schedules the navigation, and the
        navigation moves the window to the captured target. */
    method FireTimer(w: Window)
      requires Valid() && timer != Idle
      modifies this, w
      ensures Valid()
      ensures old(timer).RejectTimer? ==> error == InvalidEmail && !isLoading && !isSuccess && timer == Idle
      ensures old(timer).AcceptTimer? ==> !isLoading && isSuccess && timer == NavigateTimer(old(timer).target)
      ensures old(timer).NavigateTimer? ==> isSuccess && timer == Idle
      ensures w.storage == if old(timer).AcceptTimer? then old(w.storage)[FlagKey := FlagOn] else old(w.storage)
      ensures w.navigation == if old(timer).NavigateTimer? then Some(old(timer).target) else old(w.navigation)
      ensures w.pathname == old(w.pathname) && w.search == old(w.search)
      ensures email == old(email) && redirectUrl == old(redirectUrl)
      ensures old(isSuccess) ==> isSuccess
    {
      match timer
      case RejectTimer =>
        error := InvalidEmail;
        isLoading := false;
        timer := Idle;
      case AcceptTimer(target) =>
        isLoading := false;
        isSuccess := true;
        w.storage := w.storage[FlagKey := FlagOn];
        timer := NavigateTimer(target);
      case NavigateTimer(target) =>
        w.navigation := Some(target);
        timer := Idle;
    }

    /** A whole submission with its callbacks run to the end: an address
        with `@` signs in and lands on the redirect target after
        `AcceptDelay + NavigateDelay` ms; one without shows the error after
        `RejectDelay` ms and touches neither the flag nor the location. */
    method SubmitAndWait(w: Window) returns (elapsed: nat)
      requires Valid() && !isLoading && !isSuccess
      modifies this, w
      ensures Valid() && timer == Idle && !isLoading
      ensures ContainsChar(email, '@') ==>
        isSuccess && error == [] && LoggedIn(w.storage) && w.navigation == Some(redirectUrl)
        && w.storage == old(w.storage)[FlagKey := FlagOn] && elapsed == AcceptDelay + NavigateDelay
      ensures !ContainsChar(email, '@') ==>
        !isSuccess && error == InvalidEmail && w.storage == old(w.storage)
        && w.navigation == old(w.navigation) && elapsed == RejectDelay
      ensures email == old(email) && redirectUrl == old(redirectUrl)
      ensures w.pathname == old(w.pathname) && w.search == old(w.search)
    {
      Submit();
      elapsed := Delay(timer);
      FireTimer(w);
      if timer != Idle {
        elapsed := elapsed + Delay(timer);
        FireTimer(w);
      }
      FlagWrites(old(w.storage));
    }
  }
}
