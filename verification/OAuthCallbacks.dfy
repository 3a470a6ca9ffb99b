/**
 Sign-in attempts and the errors of their callbacks (`src/mcp_oauth.rs`): starts and callbacks in any
 interleaving. A callback is two steps, since its code exchange waits on the provider: it arrives, taking
 the attempt it carries the state of, and later it ends, recording an error or clearing one. Time is a
 clock that never runs backwards.
 */
module OAuthCallbacks {
  import opened Wrappers

  /** How long a failed callback's error waits for its page, in seconds. */
  const CALLBACK_ERROR_TTL: nat := 300

  const NO_ATTEMPT_ERROR :=
    "no OAuth authorization attempt in progress for this server"
    + " — it may have expired, or this callback link was already used"
  const UNVERIFIED_ERROR :=
    "smelt couldn't verify the authorization provider's response, so it was ignored. Click Connect to try again."
  const NO_CODE_ERROR := "authorization callback is missing its code parameter"
  const NO_STATE_ERROR := "authorization callback is missing its state parameter"

  /** A pending attempt: its own state, and the issuer it expects. `serial` tells attempts apart. */
  datatype Attempt = Attempt(state: string, expectedIssuer: Option<string>, requireIssuer: bool, serial: nat)

  datatype KeptError = KeptError(message: string, kept: nat, matched: bool)

  datatype Unmatched = NoAttempt | NotItsState

  datatype Failure = Failure(message: string, matched: bool)

  /** A callback's query parameters. */
  datatype Params = Params(code: Option<string>, state: Option<string>, iss: Option<string>,
                           error: Option<string>, description: Option<string>)

  /** Section 2.4 of RFC 9207: the issuer sent is the one expected, and is sent if the provider says it sends it. */
  predicate IssuerAccepted(attempt: Attempt, received: Option<string>) {
    match (attempt.expectedIssuer, received)
    case (Some(expected), Some(iss)) => iss == expected
    case (Some(_), None) => !attempt.requireIssuer
    case (None, Some(_)) => false
    case (None, None) => !attempt.requireIssuer
  }

  // ----- The two maps -----

  function TakeMatching(pending: map<nat, Attempt>, server: nat, state: Option<string>): Result<Attempt, Unmatched> {
    if server !in pending then Err(NoAttempt)
    else if state != Some(pending[server].state) then Err(NotItsState)
    else Ok(pending[server])
  }

  predicate Unexpired(error: KeptError, now: nat) {
    now < error.kept + CALLBACK_ERROR_TTL
  }

  function Pruned(errors: map<nat, KeptError>, now: nat): map<nat, KeptError> {
    map id | id in errors && Unexpired(errors[id], now) :: errors[id]
  }

  /** `record`: expired errors go, and an unmatched one does not replace a matched one. */
  function Recorded(errors: map<nat, KeptError>, server: nat, error: KeptError): map<nat, KeptError> {
    var kept := Pruned(errors, error.kept);
    if !error.matched && server in kept && kept[server].matched then kept else kept[server := error]
  }

  function Taken(errors: map<nat, KeptError>, server: nat, now: nat): Option<string> {
    if server in errors && Unexpired(errors[server], now) then Some(errors[server].message) else None
  }

  /** How an arriving callback goes on: failed at once, or with its code to exchange for the attempt it took. */
  datatype Arrival = Failed(failure: Failure) | Exchanging(attempt: Attempt)

  function Arrive(pending: map<nat, Attempt>, server: nat, params: Params): (arrived: (Arrival, map<nat, Attempt>)) {
    var taken := TakeMatching(pending, server, params.state);
    if params.error.Some? then
      match taken
      case Err(_) => (Failed(Failure(UNVERIFIED_ERROR, false)), pending)
      case Ok(attempt) =>
        var message :=
          if IssuerAccepted(attempt, params.iss) then params.description.GetOr(params.error.value)
          else UNVERIFIED_ERROR;
        (Failed(Failure(message, true)), pending - {server})
    else if params.code.None? then (Failed(Failure(NO_CODE_ERROR, false)), pending)
    else if params.state.None? then (Failed(Failure(NO_STATE_ERROR, false)), pending)
    else
      match taken
      case Err(NoAttempt) => (Failed(Failure(NO_ATTEMPT_ERROR, false)), pending)
      case Err(NotItsState) => (Failed(Failure(UNVERIFIED_ERROR, false)), pending)
      case Ok(attempt) => (Exchanging(attempt), pending - {server})
  }

  /** The process-wide maps, and the methods that lock them. */
  class Callbacks {
    var pending: map<nat, Attempt>
    var errors: map<nat, KeptError>

    constructor ()
      ensures pending == map[] && errors == map[]
    {
      pending, errors := map[], map[];
    }

    /** Keeps a started attempt, in place of any pending one. */
    method Start(server: nat, attempt: Attempt)
      modifies this`pending
      ensures pending == old(pending)[server := attempt]
    {
      pending := pending[server := attempt];
    }

    /** Under one guard: the attempt is removed only by a callback with its state. */
    method TakeMatchingAttempt(server: nat, state: Option<string>) returns (taken: Result<Attempt, Unmatched>)
      modifies this`pending
      ensures taken == TakeMatching(old(pending), server, state)
      ensures pending == if taken.Ok? then old(pending) - {server} else old(pending)
    {
      if server !in pending {
        return Err(NoAttempt);
      }
      var attempt := pending[server];
      if state.None? {
        return Err(NotItsState);
      }
      if attempt.state != state.value {
        return Err(NotItsState);
      }
      pending := pending - {server};
      return Ok(attempt);
    }

    method VerifyErrorCallback(server: nat, state: Option<string>, issuer: Option<string>)
      returns (refused: Option<Failure>)
      modifies this`pending
      ensures match TakeMatching(old(pending), server, state)
              case Err(_) => refused == Some(Failure(UNVERIFIED_ERROR, false)) && pending == old(pending)
              case Ok(attempt) =>
                refused == (if IssuerAccepted(attempt, issuer) then None else Some(Failure(UNVERIFIED_ERROR, true)))
                && pending == old(pending) - {server}
    {
      var taken := TakeMatchingAttempt(server, state);
      match taken
      case Err(_) => return Some(Failure(UNVERIFIED_ERROR, false));
      case Ok(attempt) =>
        if IssuerAccepted(attempt, issuer) {
          return None;
        }
        return Some(Failure(UNVERIFIED_ERROR, true));
    }

    /** `complete_callback` up to the exchange. */
    method BeginCallback(server: nat, params: Params) returns (arrival: Arrival)
      modifies this`pending
      ensures (arrival, pending) == Arrive(old(pending), server, params)
    {
      if params.error.Some? {
        var refused := VerifyErrorCallback(server, params.state, params.iss);
        if refused.Some? {
          return Failed(refused.value);
        }
        return Failed(Failure(params.description.GetOr(params.error.value), true));
      }
      if params.code.None? {
        return Failed(Failure(NO_CODE_ERROR, false));
      }
      if params.state.None? {
        return Failed(Failure(NO_STATE_ERROR, false));
      }
      var taken := TakeMatchingAttempt(server, params.state);
      match taken
      case Err(unmatched) =>
        return Failed(Failure(if unmatched.NoAttempt? then NO_ATTEMPT_ERROR else UNVERIFIED_ERROR, false));
      case Ok(attempt) => return Exchanging(attempt);
    }

    method Record(server: nat, error: KeptError)
      modifies this`errors
      ensures errors == Recorded(old(errors), server, error)
    {
      errors := map id | id in errors && error.kept < errors[id].kept + CALLBACK_ERROR_TTL :: errors[id];
      assert errors == Pruned(old(errors), error.kept);
      if !error.matched && server in errors && errors[server].matched {
        return;
      }
      errors := errors[server := error];
    }

    method ClearCallbackError(server: nat)
      modifies this`errors
      ensures errors == old(errors) - {server}
    {
      errors := errors - {server};
    }

    method TakeCallbackError(server: nat, now: nat) returns (message: Option<string>)
      modifies this`errors
      ensures message == Taken(old(errors), server, now)
      ensures errors == old(errors) - {server}
    {
      if server !in errors {
        assert errors == errors - {server};
        return None;
      }
      var error := errors[server];
      errors := errors - {server};
      return if now < error.kept + CALLBACK_ERROR_TTL then Some(error.message) else None;
    }
  }

  // ----- Runs -----

  datatype Flight = Flight(server: nat, arrival: Arrival)

  /** The maps, the callbacks between their two steps, the clock, and how many attempts were started. */
  datatype System = System(pending: map<nat, Attempt>, errors: map<nat, KeptError>, flights: map<nat, Flight>,
                           now: nat, started: nat)

  datatype Step =
    | Start(server: nat, state: string, expectedIssuer: Option<string>, requireIssuer: bool)
    | ArriveAs(callback: nat, server: nat, params: Params)
    | End(callback: nat, refused: Option<string>)
    | Take(server: nat)
    | Tick(seconds: nat)

  const BEGIN := System(map[], map[], map[], 0, 0)

  /** What an ending callback does to the errors: a failure is kept, a success clears its server's. */
  function Ended(errors: map<nat, KeptError>, flight: Flight, refused: Option<string>, now: nat): map<nat, KeptError> {
    match Outcome(flight, refused)
    case Some(failure) => Recorded(errors, flight.server, KeptError(failure.message, now, failure.matched))
    case None => errors - {flight.server}
  }

  /** Why a callback failed, if it did; `refused` is how its exchange failed. */
  function Outcome(flight: Flight, refused: Option<string>): Option<Failure> {
    match flight.arrival
    case Failed(failure) => Some(failure)
    case Exchanging(_) =>
      match refused
      case Some(message) => Some(Failure(message, true))
      case None => None
  }

  function Do(s: System, step: Step): System {
    match step
    case Start(server, state, issuer, require) =>
      s.(pending := s.pending[server := Attempt(state, issuer, require, s.started)], started := s.started + 1)
    case ArriveAs(callback, server, params) =>
      if callback in s.flights then s
      else
        var (arrival, pending) := Arrive(s.pending, server, params);
        s.(pending := pending, flights := s.flights[callback := Flight(server, arrival)])
    case End(callback, refused) =>
      if callback in s.flights then
        s.(errors := Ended(s.errors, s.flights[callback], refused, s.now), flights := s.flights - {callback})
      else s
    case Take(server) => s.(errors := s.errors - {server})
    case Tick(seconds) => s.(now := s.now + seconds)
  }

  function After(steps: seq<Step>, n: nat): System
    requires n <= |steps|
  {
    if n == 0 then BEGIN else Do(After(steps, n - 1), steps[n - 1])
  }

  // ----- An attempt stays until its own callback -----

  /** The step is a callback that takes the attempt pending for its server. */
  predicate TakesAttempt(s: System, step: Step) {
    step.ArriveAs? && step.callback !in s.flights
    && (step.params.error.Some? || step.params.code.Some?)
    && TakeMatching(s.pending, step.server, step.params.state).Ok?
  }

  /** Only a new start or a callback with its own state moves a pending attempt. */
  lemma PendingMovesBy(s: System, step: Step, server: nat)
    requires server in s.pending
    requires !(step.Start? && step.server == server)
    requires !(step.ArriveAs? && step.server == server && step.params.state == Some(s.pending[server].state))
    ensures server in Do(s, step).pending && Do(s, step).pending[server] == s.pending[server]
  {
  }

  /** Callbacks without an attempt's state, however many and whatever they carry, leave it pending. */
  lemma {:induction false} AttemptStaysPending(steps: seq<Step>, server: nat, from: nat, n: nat)
    requires from <= n <= |steps| && server in After(steps, from).pending
    requires forall k | from <= k < n && steps[k].Start? :: steps[k].server != server
    requires forall k | from <= k < n && steps[k].ArriveAs? && steps[k].server == server ::
               steps[k].params.state != Some(After(steps, from).pending[server].state)
    ensures server in After(steps, n).pending && After(steps, n).pending[server] == After(steps, from).pending[server]
    decreases n - from
  {
    hide Do;
    if from < n {
      AttemptStaysPending(steps, server, from, n - 1);
      PendingMovesBy(After(steps, n - 1), steps[n - 1], server);
    }
  }

  // ----- An attempt is taken once -----

  /** Serials count starts, and no two pending attempts share one. */
  predicate SerialsAreDistinct(s: System) {
    && (forall id | id in s.pending :: s.pending[id].serial < s.started)
    && (forall a, b | a in s.pending && b in s.pending && a != b :: s.pending[a].serial != s.pending[b].serial)
  }

  lemma StepKeepsSerials(s: System, step: Step)
    requires SerialsAreDistinct(s)
    ensures SerialsAreDistinct(Do(s, step)) && s.started <= Do(s, step).started
    ensures forall serial: nat | serial < s.started && !IsPending(s, serial) :: !IsPending(Do(s, step), serial)
  {
    hide SerialsAreDistinct;
    hide IsPending;
    hide Arrive;
    hide Ended;
    match step
    case Start(server, state, issuer, require) =>
      StartKeepsSerials(s, server, Attempt(state, issuer, require, s.started));
    case ArriveAs(callback, server, params) =>
      ArriveRemoves(s.pending, server, params);
      FewerKeepSerials(s, Do(s, step), server);
    case _ => FewerKeepSerials(s, Do(s, step), 0);
  }

  lemma StartKeepsSerials(s: System, server: nat, attempt: Attempt)
    requires SerialsAreDistinct(s) && attempt.serial == s.started
    ensures var t := s.(pending := s.pending[server := attempt], started := s.started + 1);
            && SerialsAreDistinct(t)
            && forall serial: nat | serial < s.started && !IsPending(s, serial) :: !IsPending(t, serial)
  {
  }

  lemma ArriveRemoves(pending: map<nat, Attempt>, server: nat, params: Params)
    ensures Arrive(pending, server, params).1 == pending || Arrive(pending, server, params).1 == pending - {server}
  {
  }

  lemma FewerKeepSerials(s: System, t: System, server: nat)
    requires SerialsAreDistinct(s) && t.started == s.started
             && (t.pending == s.pending || t.pending == s.pending - {server})
    ensures SerialsAreDistinct(t)
    ensures forall serial: nat | serial < s.started && !IsPending(s, serial) :: !IsPending(t, serial)
  {
  }

  predicate IsPending(s: System, serial: nat) {
    exists id | id in s.pending :: s.pending[id].serial == serial
  }

  lemma {:induction false} RunKeepsSerials(steps: seq<Step>, n: nat)
    requires n <= |steps|
    ensures SerialsAreDistinct(After(steps, n))
  {
    hide Do;
    hide SerialsAreDistinct;
    if n == 0 {
      BeginsDistinct();
    } else {
      RunKeepsSerials(steps, n - 1);
      StepKeepsSerials(After(steps, n - 1), steps[n - 1]);
    }
  }

  lemma BeginsDistinct()
    ensures SerialsAreDistinct(BEGIN)
  {
  }

  lemma TakenIsGone(s: System, step: Step)
    requires SerialsAreDistinct(s) && TakesAttempt(s, step)
    ensures !IsPending(Do(s, step), s.pending[step.server].serial) && s.pending[step.server].serial < s.started
  {
  }

  lemma {:induction false} StaysGone(steps: seq<Step>, serial: nat, from: nat, n: nat)
    requires from <= n <= |steps| && serial < After(steps, from).started && !IsPending(After(steps, from), serial)
    ensures !IsPending(After(steps, n), serial) && serial < After(steps, n).started
    decreases n - from
  {
    hide Do;
    hide IsPending;
    hide SerialsAreDistinct;
    if from < n {
      StaysGone(steps, serial, from, n - 1);
      RunKeepsSerials(steps, n - 1);
      StepKeepsSerials(After(steps, n - 1), steps[n - 1]);
    }
  }

  /** No two callbacks take the same attempt. */
  lemma TakenAtMostOnce(steps: seq<Step>, first: nat, second: nat)
    requires first < second < |steps|
    requires TakesAttempt(After(steps, first), steps[first]) && TakesAttempt(After(steps, second), steps[second])
    ensures After(steps, first).pending[steps[first].server].serial
         != After(steps, second).pending[steps[second].server].serial
  {
    hide Do;
    hide SerialsAreDistinct;
    var s := After(steps, first);
    var serial := s.pending[steps[first].server].serial;
    RunKeepsSerials(steps, first);
    TakenIsGone(s, steps[first]);
    StepKeepsSerials(s, steps[first]);
    StaysGone(steps, serial, first + 1, second);
  }

  // ----- A matched callback's error is what the page takes -----

  predicate EndsFor(s: System, step: Step, server: nat) {
    step.End? && step.callback in s.flights && s.flights[step.callback].server == server
  }

  /** Ends a callback that failed as it arrived, or whose exchange was refused. */
  predicate Fails(s: System, step: Step, server: nat) {
    EndsFor(s, step, server) && (s.flights[step.callback].arrival.Failed? || step.refused.Some?)
  }

  function FailureOf(s: System, step: Step, server: nat): Failure
    requires Fails(s, step, server)
  {
    var arrival := s.flights[step.callback].arrival;
    if arrival.Failed? then arrival.failure else Failure(step.refused.value, true)
  }

  /** Ends a callback that matched an attempt, or succeeded, for the server. */
  predicate Settles(s: System, step: Step, server: nat) {
    EndsFor(s, step, server) && (Fails(s, step, server) ==> FailureOf(s, step, server).matched)
  }

  lemma {:induction false} ClockRunsOn(steps: seq<Step>, from: nat, n: nat)
    requires from <= n <= |steps|
    ensures After(steps, from).now <= After(steps, n).now
    decreases n - from
  {
    hide Do;
    if from < n {
      ClockRunsOn(steps, from, n - 1);
      StepRunsOn(After(steps, n - 1), steps[n - 1]);
    }
  }

  lemma StepRunsOn(s: System, step: Step)
    ensures s.now <= Do(s, step).now
  {
    hide Arrive;
    hide Ended;
  }

  lemma MatchedErrorSurvives(s: System, step: Step, server: nat)
    requires server in s.errors && s.errors[server].matched && Unexpired(s.errors[server], s.now)
    requires !Settles(s, step, server) && step != Take(server)
    ensures server in Do(s, step).errors && Do(s, step).errors[server] == s.errors[server]
  {
  }

  /**
   A matched callback's error stays, whatever unmatched callbacks come, until another settles or the page takes it.
   */
  lemma {:induction false} MatchedErrorStays(steps: seq<Step>, server: nat, from: nat, n: nat)
    requires from <= n <= |steps| && server in After(steps, from).errors && After(steps, from).errors[server].matched
    requires Unexpired(After(steps, from).errors[server], After(steps, n).now)
    requires forall k | from <= k < n :: !Settles(After(steps, k), steps[k], server) && steps[k] != Take(server)
    ensures server in After(steps, n).errors && After(steps, n).errors[server] == After(steps, from).errors[server]
    decreases n - from
  {
    hide Do;
    hide Settles;
    if from < n {
      ClockRunsOn(steps, n - 1, n);
      MatchedErrorStays(steps, server, from, n - 1);
      MatchedErrorSurvives(After(steps, n - 1), steps[n - 1], server);
    }
  }

  /**
   The error of a matched callback that ended at step `ended` is what the next take, within the time it is
   kept, returns: no unmatched callback in between replaces it.
   */
  lemma MatchedErrorIsTaken(steps: seq<Step>, server: nat, ended: nat, n: nat)
    requires ended < n < |steps| && steps[n] == Take(server) && Fails(After(steps, ended), steps[ended], server)
    requires FailureOf(After(steps, ended), steps[ended], server).matched
    requires forall k | ended < k < n :: !Settles(After(steps, k), steps[k], server) && steps[k] != Take(server)
    requires After(steps, n).now < After(steps, ended).now + 300
    ensures Taken(After(steps, n).errors, server, After(steps, n).now)
            == Some(FailureOf(After(steps, ended), steps[ended], server).message)
  {
    hide Settles;
    assert After(steps, ended + 1) == Do(After(steps, ended), steps[ended]);
    MatchedErrorStays(steps, server, ended + 1, n);
  }

  // ----- What the page takes is the last such error -----

  /** The error kept for a server is of a failed callback that nothing since took, settled, or replaced. */
  predicate IsLast(steps: seq<Step>, server: nat, ended: nat, n: nat)
    requires ended < n <= |steps|
  {
    && Fails(After(steps, ended), steps[ended], server)
    && forall k | ended < k < n ::
         && steps[k] != Take(server) && !Settles(After(steps, k), steps[k], server)
         && (Fails(After(steps, k), steps[k], server) ==>
               FailureOf(After(steps, ended), steps[ended], server).matched)
  }

  predicate IsKept(s: System, step: Step, server: nat, errors: map<nat, KeptError>) {
    && Fails(s, step, server) && server in errors
    && errors[server] == KeptError(FailureOf(s, step, server).message, s.now, FailureOf(s, step, server).matched)
  }

  lemma KeptBy(s: System, step: Step, server: nat)
    requires server in Do(s, step).errors
    ensures IsKept(s, step, server, Do(s, step).errors)
            || (server in s.errors && Do(s, step).errors[server] == s.errors[server]
                && step != Take(server) && !Settles(s, step, server)
                && (Fails(s, step, server) ==> s.errors[server].matched))
  {
    hide Arrive;
  }

  lemma {:induction false} LastIsKept(steps: seq<Step>, server: nat, n: nat) returns (ended: nat)
    requires n <= |steps| && server in After(steps, n).errors
    ensures ended < n && IsLast(steps, server, ended, n)
    ensures IsKept(After(steps, ended), steps[ended], server, After(steps, n).errors)
  {
    hide Do;
    hide Settles;
    hide Fails;
    hide FailureOf;
    if n == 0 {
      NoneAtFirst(server);
    } else {
      var s := After(steps, n - 1);
      KeptBy(s, steps[n - 1], server);
      if IsKept(s, steps[n - 1], server, After(steps, n).errors) {
        ended := n - 1;
      } else {
        ended := LastIsKept(steps, server, n - 1);
      }
    }
  }

  lemma NoneAtFirst(server: nat)
    ensures server !in BEGIN.errors
  {
  }

  /**
   In every run, what a take returns is the error of a callback that failed for the server less than 300 seconds
   before, and since when none was taken, none succeeded or failed matched, and none failed at all if it is unmatched.
   */
  lemma TakenIsTheLast(steps: seq<Step>, server: nat, n: nat) returns (ended: nat)
    requires n < |steps| && Taken(After(steps, n).errors, server, After(steps, n).now).Some?
    ensures ended < n && IsLast(steps, server, ended, n)
    ensures Taken(After(steps, n).errors, server, After(steps, n).now)
            == Some(FailureOf(After(steps, ended), steps[ended], server).message)
    ensures After(steps, n).now < After(steps, ended).now + 300
  {
    hide Do;
    hide Settles;
    hide Fails;
    hide FailureOf;
    ended := LastIsKept(steps, server, n);
  }

  lemma ErrorSurvives(s: System, step: Step, server: nat)
    requires server in s.errors && Unexpired(s.errors[server], s.now)
    requires !EndsFor(s, step, server) && step != Take(server)
    ensures server in Do(s, step).errors && Do(s, step).errors[server] == s.errors[server]
  {
    hide Arrive;
  }

  lemma {:induction false} ErrorStays(steps: seq<Step>, server: nat, from: nat, n: nat)
    requires from <= n <= |steps| && server in After(steps, from).errors
    requires Unexpired(After(steps, from).errors[server], After(steps, n).now)
    requires forall k | from <= k < n :: !EndsFor(After(steps, k), steps[k], server) && steps[k] != Take(server)
    ensures server in After(steps, n).errors && After(steps, n).errors[server] == After(steps, from).errors[server]
    decreases n - from
  {
    hide Do;
    hide EndsFor;
    if from < n {
      ClockRunsOn(steps, n - 1, n);
      ErrorStays(steps, server, from, n - 1);
      ErrorSurvives(After(steps, n - 1), steps[n - 1], server);
    }
  }

  /** An unmatched callback's error is taken too, when no matched one waits for its page and none ended since. */
  lemma UnmatchedErrorIsTaken(steps: seq<Step>, server: nat, ended: nat, n: nat)
    requires ended < n < |steps| && steps[n] == Take(server) && Fails(After(steps, ended), steps[ended], server)
    requires var s := After(steps, ended);
             server in s.errors && s.errors[server].matched ==> s.errors[server].kept + 300 <= s.now
    requires forall k | ended < k < n :: !EndsFor(After(steps, k), steps[k], server) && steps[k] != Take(server)
    requires After(steps, n).now < After(steps, ended).now + 300
    ensures Taken(After(steps, n).errors, server, After(steps, n).now)
            == Some(FailureOf(After(steps, ended), steps[ended], server).message)
  {
    assert After(steps, ended + 1) == Do(After(steps, ended), steps[ended]);
    ErrorStays(steps, server, ended + 1, n);
  }

  // ----- A provider's text is shown only once it is verified -----

  /** What smelt says of a callback it can't tie to an attempt. */
  predicate IsOwnText(message: string) {
    message == UNVERIFIED_ERROR || message == NO_ATTEMPT_ERROR || message == NO_CODE_ERROR || message == NO_STATE_ERROR
  }

  /**
   A failed callback says nothing of the provider's unless it carried the pending attempt's state and an
   issuer that attempt accepts; one that took no attempt is unmatched, and says only smelt's own words.
   */
  lemma ProviderTextIsVerified(pending: map<nat, Attempt>, server: nat, params: Params)
    ensures var (arrival, after) := Arrive(pending, server, params);
            && (after != pending <==> after == pending - {server} && server in pending)
            && (arrival.Failed? && !arrival.failure.matched ==> IsOwnText(arrival.failure.message) && after == pending)
            && (arrival.Failed? && arrival.failure.matched ==>
                  && server in pending && params.state == Some(pending[server].state) && server !in after
                  && (IssuerAccepted(pending[server], params.iss) || arrival.failure.message == UNVERIFIED_ERROR))
            && (arrival.Exchanging? ==>
                  server in pending && params.state == Some(pending[server].state)
                      && arrival.attempt == pending[server] && server !in after)
  {
    if server in pending {
      assert server !in pending - {server};
    }
  }

  // ----- An attempt's own callback goes through -----

  /**
   An issuer is taken by section 2.4 of RFC 9207: one sent must be the one expected, and one must be sent if required.
   */
  lemma IssuersAccepted(attempt: Attempt, received: Option<string>)
    ensures IssuerAccepted(attempt, received)
       <==> if received.Some? then attempt.expectedIssuer == received else !attempt.requireIssuer
  {
  }

  /**
   A callback goes on to its exchange exactly when it carries a code, no error, and the pending attempt's state;
   one with an error shows the provider's words exactly when it carries that state and an accepted issuer.
   */
  lemma OwnCallbacksAreTaken(pending: map<nat, Attempt>, server: nat, params: Params)
    ensures var (arrival, after) := Arrive(pending, server, params);
            var own := server in pending && params.state == Some(pending[server].state);
            && (arrival.Exchanging? <==> own && params.error.None? && params.code.Some?)
            && (arrival.Exchanging? ==> arrival.attempt == pending[server])
            && (after == (if own && (params.error.Some? || params.code.Some?) then pending - {server} else pending))
            && (params.error.Some? ==>
                  arrival == Failed(
                    if !own then Failure(UNVERIFIED_ERROR, false)
                    else if IssuerAccepted(pending[server], params.iss) then
                      Failure(if params.description.Some? then params.description.value else params.error.value, true)
                    else Failure(UNVERIFIED_ERROR, true)))
  {
    if server in pending {
      assert server !in pending - {server};
    }
  }

  /**
   In every run, the callback of an attempt no other start replaced and no callback with its state took is exchanged.
   */
  lemma AttemptIsExchanged(steps: seq<Step>, started: nat, n: nat)
    requires started < n < |steps| && steps[started].Start? && steps[n].ArriveAs?
             && steps[n].server == steps[started].server
    requires steps[n].callback !in After(steps, n).flights
    requires steps[n].params.error.None? && steps[n].params.code.Some?
    requires steps[n].params.state == Some(steps[started].state)
    requires forall k | started < k < n && steps[k].Start? :: steps[k].server != steps[started].server
    requires forall k | started < k < n && steps[k].ArriveAs? && steps[k].server == steps[started].server ::
               steps[k].params.state != Some(steps[started].state)
    ensures var step := steps[started];
            var attempt := Attempt(step.state, step.expectedIssuer, step.requireIssuer, After(steps, started).started);
            var flights := After(steps, n + 1).flights;
            steps[n].callback in flights && flights[steps[n].callback] == Flight(step.server, Exchanging(attempt))
  {
    hide Arrive;
    var server := steps[started].server;
    assert server in After(steps, started + 1).pending;
    AttemptStaysPending(steps, server, started + 1, n);
    OwnCallbacksAreTaken(After(steps, n).pending, server, steps[n].params);
  }
}
