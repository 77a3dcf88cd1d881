/** The worker's HTTP client towards the gateway: retries, polling and the life of one orchestrated job. */
module Orchestrators {
  import opened Domain
  import opened Backoffs

  /** A decoded reply, or one whose body the client cannot use. */
  datatype Body = Unusable | Json(id: Option<string>, status: string)

  datatype Response = Reply(code: int, body: Body) | NetworkError

  /** The server's answers to one logical request, by attempt number from 0. */
  type Answers = nat -> Response

  const RETRY_STATUS_CODES := {500, 502, 503, 504}

  /** `AssertionFailed` is the trailing assertion of the retry loop. */
  datatype RequestResult = Accepted(code: int, body: Body) | Refused | AssertionFailed

  /** An answer after which the request is tried again, if retries are left. */
  predicate Transient(r: Response, expected: set<int>) {
    r.NetworkError? || (r.code !in expected && r.code in RETRY_STATUS_CODES)
  }

  /** The attempt that decides: the first with a definite answer, or the last one allowed. */
  function Deciding(answers: Answers, expected: set<int>, attempt: nat, retries: int): (last: nat)
    ensures last >= attempt && (attempt <= retries ==> last <= retries)
    ensures forall j | attempt <= j < last :: Transient(answers(j), expected)
    ensures last < retries ==> !Transient(answers(last), expected)
    decreases retries - attempt
  {
    if attempt >= retries || !Transient(answers(attempt), expected) then attempt
    else Deciding(answers, expected, attempt + 1, retries)
  }

  function Requested(answers: Answers, expected: set<int>, retries: int): RequestResult {
    if retries < 0 then AssertionFailed
    else
      var r := answers(Deciding(answers, expected, 0, retries));
      if r.Reply? && r.code in expected then Accepted(r.code, r.body) else Refused
  }

  /** An answer to try again after: no answer at all, or a gateway failure that was not expected. */
  predicate WorthRetrying(r: Response, expected: set<int>) {
    match r
    case NetworkError => true
    case Reply(code, _) => code !in expected && (code == 500 || code == 502 || code == 503 || code == 504)
  }

  /** Answer `n` is the first, within the retries, that is not worth retrying. */
  ghost predicate Settles(answers: Answers, expected: set<int>, retries: int, n: nat) {
    && n <= retries && !WorthRetrying(answers(n), expected)
    && forall j | 0 <= j < n :: WorthRetrying(answers(j), expected)
  }

  /**
   A request is accepted exactly when the first answer that is not worth retrying comes within the
   retries and has an expected status; it is refused when that status is another one, or when every
   allowed attempt ended in a failure worth retrying.
   */
  lemma RequestedExact(answers: Answers, expected: set<int>, retries: int)
    ensures var result := Requested(answers, expected, retries);
            && (retries < 0 <==> result.AssertionFailed?)
            && (forall n | Settles(answers, expected, retries, n) ::
                  if answers(n).code in expected then result == Accepted(answers(n).code, answers(n).body)
                  else result == Refused)
            && (retries >= 0 && (forall n: nat | n <= retries :: WorthRetrying(answers(n), expected)) ==>
                  result == Refused)
  {
    if retries >= 0 {
      var last := Deciding(answers, expected, 0, retries);
      assert WorthRetrying(answers(last), expected) <==> Transient(answers(last), expected);
      forall n | Settles(answers, expected, retries, n) ensures n == last {
        assert !Transient(answers(n), expected);
      }
    }
  }

  /**
   `_request_with_retry`: at most retries + 1 requests, with base * 2^j seconds before retry
   j + 1. It succeeds exactly when the deciding answer has an expected status, and its
   trailing assertion is reached exactly when `retries` is negative.
   */
  method RequestWithRetry(answers: Answers, expected: set<int>, retries: int, backoff: real)
    returns (result: RequestResult, requests: nat, waits: seq<real>)
    ensures result == Requested(answers, expected, retries)
    ensures result.AssertionFailed? <==> retries < 0
    ensures requests == if retries < 0 then 0 else Deciding(answers, expected, 0, retries) + 1
    ensures requests <= if retries < 0 then 0 else retries + 1
    ensures waits == Backoff(backoff, if requests == 0 then 0 else requests - 1)
  {
    var attempt := 0;
    waits := [];
    requests := 0;
    while attempt <= retries
      invariant requests == attempt && (attempt == 0 || attempt <= retries)
      invariant waits == Backoff(backoff, attempt)
      invariant retries >= 0 ==>
                  Deciding(answers, expected, 0, retries) == Deciding(answers, expected, attempt, retries)
      decreases retries - attempt
    {
      var response := answers(attempt);
      requests := requests + 1;
      match response {
        case Reply(code, body) =>
          if code in expected {
            return Accepted(code, body), requests, waits;
          }
          if !(code >= 400 && code in RETRY_STATUS_CODES && attempt < retries) {
            return Refused, requests, waits;
          }
        case NetworkError =>
          if attempt >= retries {
            return Refused, requests, waits;
          }
      }
      DelayClosedForm(backoff, attempt);
      var delay := backoff * Factor(attempt);
      assert delay == Delay(backoff, attempt);
      waits := waits + [delay];
      attempt := attempt + 1;
    }
    result := AssertionFailed;
  }

  // ---------- one job ----------

  datatype Outcome = Fine | GatewayFailed | TimedOut | Crashed

  /** A request whose reply must also be usable. */
  function Decoded(r: RequestResult): Outcome {
    match r
    case Accepted(_, body) => if body.Json? then Fine else Crashed
    case Refused => GatewayFailed
    case AssertionFailed => Crashed
  }

  /** Everything the gateway answers during one job; `elapsed(i)` is the time after poll i. */
  datatype JobWorld = JobWorld(
    create: Answers, proxy: Answers, polls: nat -> Answers, elapsed: nat -> real, touch: Answers, delete: Answers)

  datatype JobSettings = JobSettings(hasProxy: bool, pollTimeout: real, retries: int, backoff: real)

  const READY := "READY"

  function PollReply(w: JobWorld, i: nat, retries: int): RequestResult {
    Requested(w.polls(i), {200}, retries)
  }

  /** Poll i does not end the polling: the session is not ready yet and there is time left. */
  predicate KeepsPolling(w: JobWorld, s: JobSettings, i: nat) {
    var r := PollReply(w, i, s.retries);
    r.Accepted? && r.body.Json? && r.body.status != READY && w.elapsed(i) < s.pollTimeout
  }

  /** How the poll that ends the polling ends it. */
  function PollOutcome(w: JobWorld, s: JobSettings, i: nat): Outcome {
    var r := PollReply(w, i, s.retries);
    if Decoded(r) != Fine then Decoded(r)
    else if r.Accepted? && r.body.Json? && r.body.status == READY then Fine
    else TimedOut
  }

  /**
   `poll_session_status`. A session that is ready is reported ready even after the timeout.
   `bound` witnesses that the clock passes the timeout some time.
   */
  method PollSessionStatus(w: JobWorld, s: JobSettings, ghost bound: nat) returns (outcome: Outcome, attempts: nat)
    requires w.elapsed(bound) >= s.pollTimeout
    ensures 1 <= attempts <= bound + 1
    ensures forall i | 0 <= i < attempts - 1 :: KeepsPolling(w, s, i)
    ensures !KeepsPolling(w, s, attempts - 1) && outcome == PollOutcome(w, s, attempts - 1)
  {
    attempts := 0;
    while true
      invariant attempts <= bound && forall i | 0 <= i < attempts :: KeepsPolling(w, s, i)
      decreases bound - attempts
    {
      attempts := attempts + 1;
      var reply, requests, waits := RequestWithRetry(w.polls(attempts - 1), {200}, s.retries, s.backoff);
      if Decoded(reply) != Fine {
        return Decoded(reply), attempts;
      }
      if reply.body.status == READY {
        return Fine, attempts;
      }
      if w.elapsed(attempts - 1) >= s.pollTimeout {
        return TimedOut, attempts;
      }
    }
  }

  datatype Stage = Create | Proxy | Poll | Touch | Delete

  datatype Step = Step(stage: Stage, outcome: Outcome)

  /** The identifier the gateway gave the session; an empty one counts as none. */
  function CreatedId(w: JobWorld, retries: int): Option<string> {
    match Requested(w.create, {201}, retries)
    case Accepted(_, Json(Some(id), _)) => if id == "" then None else Some(id)
    case _ => None
  }

  /** What follows a stage that went well. */
  function Next(stage: Stage, hasId: bool, hasProxy: bool): Option<Stage> {
    match stage
    case Create => if !hasId then None else if hasProxy then Some(Proxy) else Some(Poll)
    case Proxy => Some(Poll)
    case Poll => Some(Touch)
    case Touch => None
    case Delete => None
  }

  /** The step's outcome is what the gateway's answers make it. */
  ghost predicate Faithful(w: JobWorld, s: JobSettings, step: Step) {
    match step.stage
    case Create => step.outcome == Decoded(Requested(w.create, {201}, s.retries))
    case Proxy => step.outcome == Decoded(Requested(w.proxy, {200}, s.retries))
    case Poll => exists i :: EndsPolling(w, s, i) && step.outcome == PollOutcome(w, s, i)
    case Touch => step.outcome == Decoded(Requested(w.touch, {200}, s.retries))
    case Delete => step.outcome == Deleted(Requested(w.delete, {204, 404}, s.retries))
  }

  ghost predicate EndsPolling(w: JobWorld, s: JobSettings, i: nat) {
    && (forall j | 0 <= j < i :: KeepsPolling(w, s, j))
    && !KeepsPolling(w, s, i)
  }

  /** A deletion needs no body; a session that is already gone counts as deleted. */
  function Deleted(r: RequestResult): Outcome {
    match r
    case Accepted(_, _) => Fine
    case Refused => GatewayFailed
    case AssertionFailed => Crashed
  }

  /** A run of stages from creation: each follows a success, and the last one has no successor or failed. */
  ghost predicate Complete(steps: seq<Step>, hasId: bool, hasProxy: bool) {
    && steps != [] && steps[0].stage == Create
    && (forall i | 0 <= i < |steps| - 1 ::
          steps[i].outcome == Fine && Next(steps[i].stage, hasId, hasProxy) == Some(steps[i + 1].stage))
    && (steps[|steps| - 1].outcome == Fine ==> Next(steps[|steps| - 1].stage, hasId, hasProxy).None?)
  }

  function FirstFailure(steps: seq<Step>): Option<Outcome> {
    if steps == [] then None
    else if steps[0].outcome != Fine then Some(steps[0].outcome)
    else FirstFailure(steps[1..])
  }

  /** The stages of a job whose creation returned an identifier, before the deletion. */
  function Plan(hasProxy: bool): seq<Stage> {
    [Create] + (if hasProxy then [Proxy] else []) + [Poll, Touch]
  }

  lemma FollowsOn(steps: seq<Step>, hasId: bool, hasProxy: bool, i: int)
    requires Complete(steps, hasId, hasProxy) && 0 <= i < |steps| - 1
    ensures Next(steps[i].stage, hasId, hasProxy) == Some(steps[i + 1].stage)
  {
  }

  /** A run of stages is the plan up to its first failure; without an identifier it ends with the creation. */
  lemma StagesFollowPlan(steps: seq<Step>, hasId: bool, hasProxy: bool)
    requires Complete(steps, hasId, hasProxy) && forall i | 0 <= i < |steps| :: steps[i].stage != Delete
    ensures !hasId ==> |steps| == 1
    ensures hasId ==> |steps| <= |Plan(hasProxy)|
    ensures hasId ==> forall i | 0 <= i < |steps| :: steps[i].stage == Plan(hasProxy)[i]
    ensures hasId && steps[|steps| - 1].outcome == Fine ==> |steps| == |Plan(hasProxy)|
  {
    if |steps| > 1 {
      FollowsOn(steps, hasId, hasProxy, 0);
    }
    if hasId {
      var plan := Plan(hasProxy);
      var i := 0;
      while i < |steps| - 1
        invariant 0 <= i < |steps| && i < |plan| && forall j | 0 <= j <= i :: steps[j].stage == plan[j]
      {
        FollowsOn(steps, hasId, hasProxy, i);
        i := i + 1;
      }
    }
  }

  /**
   What the outcomes mean: a stage is fine when its request was accepted with a usable body, for a
   deletion with any body; the gateway failed when the request was refused; anything else crashes. A
   poll is over in time when the session is READY, and too late when it is not and the time is up.
   The identifier is that of an accepted creation, and not empty.
   */
  lemma OutcomesMean(w: JobWorld, s: JobSettings, r: RequestResult, i: nat)
    ensures Decoded(r) == Fine <==> r.Accepted? && r.body.Json?
    ensures Decoded(r) == GatewayFailed <==> r.Refused?
    ensures Decoded(r) != TimedOut && Deleted(r) != TimedOut
    ensures Deleted(r) == Fine <==> r.Accepted?
    ensures Deleted(r) == GatewayFailed <==> r.Refused?
    ensures var reply := Requested(w.polls(i), {200}, s.retries); var usable := reply.Accepted? && reply.body.Json?;
            && (PollOutcome(w, s, i) == Fine <==> usable && reply.body.status == "READY")
            && (PollOutcome(w, s, i) == TimedOut <==> usable && reply.body.status != "READY")
            && (PollOutcome(w, s, i) == GatewayFailed <==> reply.Refused?)
            && (KeepsPolling(w, s, i) <==> usable && reply.body.status != "READY" && w.elapsed(i) < s.pollTimeout)
    ensures var reply := Requested(w.create, {201}, s.retries); var id := CreatedId(w, s.retries);
            && (id.Some? <==> reply.Accepted? && reply.body.Json? && reply.body.id.Some? && reply.body.id.value != "")
            && (id.Some? ==> reply.body.id == id)
  {
    hide Requested;
  }

  /** The first failure of a run is that of its earliest step that is not fine. */
  lemma {:induction false} FirstFailureExact(steps: seq<Step>)
    ensures FirstFailure(steps).None? <==> forall i | 0 <= i < |steps| :: steps[i].outcome == Fine
    ensures forall i | 0 <= i < |steps| && steps[i].outcome != Fine
                       && (forall j | 0 <= j < i :: steps[j].outcome == Fine) ::
              FirstFailure(steps) == Some(steps[i].outcome)
  {
    if steps != [] {
      FirstFailureExact(steps[1..]);
      assert steps == [steps[0]] + steps[1..];
      forall i | 0 < i < |steps| && steps[i].outcome != Fine && (forall j | 0 <= j < i :: steps[j].outcome == Fine)
        ensures FirstFailure(steps) == Some(steps[i].outcome)
      {
        assert steps[1..][i - 1] == steps[i];
        assert forall j | 0 <= j < i - 1 :: steps[1..][j] == steps[j + 1];
      }
    }
  }

  /** `Raised` stands for an exception the function does not turn into a result. */
  datatype JobResult = Finished(ok: bool, error: Option<Outcome>) | Raised

  /**
   `run_orchestrated_job`. Whenever the creation returned an identifier, and on every path
   from there, the session is deleted exactly once, as the last thing. The job is reported
   ok exactly when every stage and the deletion went well; the error is the first failure.
   */
  method RunOrchestratedJob(w: JobWorld, s: JobSettings, ghost bound: nat) returns (result: JobResult, steps: seq<Step>)
    requires w.elapsed(bound) >= s.pollTimeout
    ensures forall i | 0 <= i < |steps| :: Faithful(w, s, steps[i])
    ensures var hasId := CreatedId(w, s.retries).Some?;
            if hasId then
              && |steps| >= 2 && steps[|steps| - 1].stage == Delete
              && Complete(steps[..|steps| - 1], true, s.hasProxy)
              && (forall i | 0 <= i < |steps| - 1 :: steps[i].stage != Delete)
            else
              Complete(steps, false, s.hasProxy) && |steps| == 1
    ensures result.Raised? <==> exists i | 0 <= i < |steps| :: steps[i].outcome == Crashed
    ensures result.Finished? ==> result.error == FirstFailure(steps) && (result.ok <==> result.error.None?)
  {
    var body := RunStages(w, s, bound);
    var id := CreatedId(w, s.retries);
    var failure := Verdict(body);
    steps := body;
    var raised := failure == Some(Crashed);
    var error := failure;
    if id.Some? {
      var reply, requests, waits := RequestWithRetry(w.delete, {204, 404}, s.retries, s.backoff);
      steps := body + [Step(Delete, Deleted(reply))];
      assert steps[..|steps| - 1] == body;
      FailureAppended(body, Step(Delete, Deleted(reply)));
      raised := raised || Deleted(reply) == Crashed;
      if Deleted(reply) == GatewayFailed && error.None? {
        error := Some(GatewayFailed);
      }
    }
    result := if raised then Raised else Finished(error.None?, error);
  }

  /** The part before the deletion. */
  method RunStages(w: JobWorld, s: JobSettings, ghost bound: nat) returns (steps: seq<Step>)
    requires w.elapsed(bound) >= s.pollTimeout
    ensures forall i | 0 <= i < |steps| :: Faithful(w, s, steps[i]) && steps[i].stage != Delete
    ensures Complete(steps, CreatedId(w, s.retries).Some?, s.hasProxy)
    ensures CreatedId(w, s.retries).None? ==> |steps| == 1
    ensures forall i | 0 <= i < |steps| - 1 :: steps[i].outcome == Fine
  {
    hide Requested;
    hide Faithful;
    hide Backoff;
    hide Deciding;
    var create, hasId := StageCreate(w, s);
    steps := [create];
    if create.outcome != Fine || !hasId {
      return;
    }
    if s.hasProxy {
      var proxy := StageRequest(w, s, Proxy);
      steps := steps + [proxy];
      if proxy.outcome != Fine {
        return;
      }
    }
    var poll := StagePoll(w, s, bound);
    steps := steps + [poll];
    if poll.outcome != Fine {
      return;
    }
    var touch := StageRequest(w, s, Touch);
    steps := steps + [touch];
  }

  method StageCreate(w: JobWorld, s: JobSettings) returns (step: Step, hasId: bool)
    ensures step.stage == Create && Faithful(w, s, step) && hasId == CreatedId(w, s.retries).Some?
    ensures hasId ==> step.outcome == Fine
  {
    var reply, requests, waits := RequestWithRetry(w.create, {201}, s.retries, s.backoff);
    step := Step(Create, Decoded(reply));
    hasId := step.outcome == Fine && reply.body.id.Some? && reply.body.id != Some("");
  }

  method StageRequest(w: JobWorld, s: JobSettings, stage: Stage) returns (step: Step)
    requires stage in {Proxy, Touch}
    ensures step.stage == stage && Faithful(w, s, step)
  {
    var answers := if stage == Proxy then w.proxy else w.touch;
    var reply, requests, waits := RequestWithRetry(answers, {200}, s.retries, s.backoff);
    step := Step(stage, Decoded(reply));
  }

  method StagePoll(w: JobWorld, s: JobSettings, ghost bound: nat) returns (step: Step)
    requires w.elapsed(bound) >= s.pollTimeout
    ensures step.stage == Poll && Faithful(w, s, step)
  {
    hide PollOutcome;
    hide KeepsPolling;
    var polled, attempts := PollSessionStatus(w, s, bound);
    assert EndsPolling(w, s, attempts - 1);
    step := Step(Poll, polled);
  }

  /** Only the last of the stages can have failed. */
  function Verdict(steps: seq<Step>): (failure: Option<Outcome>)
    requires steps != [] && forall i | 0 <= i < |steps| - 1 :: steps[i].outcome == Fine
    ensures failure == FirstFailure(steps)
    ensures failure == Some(Crashed) <==> exists i | 0 <= i < |steps| :: steps[i].outcome == Crashed
  {
    if |steps| > 1 then
      assert forall i | 0 <= i < |steps[1..]| :: steps[1..][i] == steps[i + 1];
      Verdict(steps[1..])
    else if steps[0].outcome == Fine then None
    else Some(steps[0].outcome)
  }

  lemma {:induction false} FailureAppended(steps: seq<Step>, last: Step)
    ensures FirstFailure(steps + [last]) ==
            if FirstFailure(steps).Some? then FirstFailure(steps)
            else if last.outcome != Fine then Some(last.outcome)
            else None
  {
    if steps == [] {
      assert [last][1..] == [];
    } else {
      assert (steps + [last])[1..] == steps[1..] + [last];
      FailureAppended(steps[1..], last);
    }
  }
}
