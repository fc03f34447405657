/** What becomes of a message when its worker is left alone: every course of a run, from the claim to its end. */
module Outcomes {
  import opened Strings
  import opened Lifecycle

  /** What the materials, the gate, the store, the provider and the wallet say, in that order. */
  datatype Course =
    | NoMaterials
    | FreeAnswer
    | FreeFailure(canceledCode: bool, retryable: bool)
    | Refusal
    | Crowd
    | Answer(payment: Payment)
    | Failure(canceledCode: bool, retryable: bool)
    | Stored(truncated: bool)
    | InProgress
    | Recovery(payment: Payment)

  predicate IsFresh(s: State) { s.attempt !in s.anchors || s.anchors[s.attempt].Broken? }

  predicate IsPossible(s: State, c: Course) {
    match c
    case NoMaterials => true
    case FreeAnswer => s.free
    case FreeFailure(_, _) => s.free
    case Answer(_) => !s.free && IsFresh(s) && s.attempt !in s.debits
    case Failure(_, _) => !s.free && IsFresh(s)
    case Stored(_) => !s.free && HasAnchor(s, s.attempt, Completed)
    case InProgress => !s.free && HasAnchor(s, s.attempt, InFlight)
    case Recovery(_) => !s.free && HasAnchor(s, s.attempt, InFlight) && s.attempt !in s.debits
    case _ => !s.free
  }

  /** The steps up to the point where the worker reports, or gives the job back. */
  function StepsOf(c: Course): seq<Action> {
    match c
    case NoMaterials => []
    case FreeAnswer => [ProviderReturns(true)]
    case FreeFailure(canceledCode, retryable) => [ProviderReturns(false), DecideFailure(canceledCode, retryable)]
    case Refusal => [RunGate(Denied)]
    case Crowd => [RunGate(TooManyInflight)]
    case Answer(payment) => [RunGate(Allowed(false)), ProviderReturns(true), Settle(payment)]
    case Failure(canceledCode, retryable) =>
      [RunGate(Allowed(false)), ProviderReturns(false), DecideFailure(canceledCode, retryable)]
    case Stored(truncated) => [RunGate(Allowed(truncated))]
    case InProgress => [RunGate(Allowed(false)), RecoverOrphan(false)]
    case Recovery(payment) =>
      [RunGate(Allowed(false)), RecoverOrphan(true), RunGate(Allowed(false)), ProviderReturns(true), Settle(payment)]
  }

  /** The message is done with, and so is its job. */
  predicate EndsAs(end: State, phase: Phase, charged: Option<int>) {
    end.phase == phase && end.charged == charged && end.job.NoJob?
  }

  /** The job is queued again with the message under way, or given up after the last attempt and the message failed. */
  predicate GoesBack(s: State, end: State, maxAttempts: nat)
    requires s.job.Held?
  {
    if s.job.attempts < maxAttempts then end.phase.Running? && end.job == Waiting(s.job.attempts)
    else end.phase.Failed? && end.job.NoJob?
  }

  function CreditsOf(p: Payment): nat { if p.Debit? && p.credits > 0 then p.credits else 0 }

  predicate FailsBy(s: State, end: State, canceledCode: bool, retryable: bool, maxAttempts: nat)
    requires s.job.Held?
  {
    if canceledCode then EndsAs(end, Canceled, s.charged)
    else if retryable && s.job.attempts < maxAttempts then end.phase.Running? && end.job == Waiting(s.job.attempts)
    else EndsAs(end, Failed, s.charged)
  }

  predicate PaidBy(s: State, end: State, payment: Payment) {
    && EndsAs(end, Succeeded, Some(CreditsOf(payment))) && HasAnchor(end, s.attempt, Completed)
    && end.debits == if CreditsOf(payment) > 0 then s.debits[s.attempt := CreditsOf(payment)] else s.debits
  }

  /** What each course comes to. */
  predicate ComesTo(s: State, c: Course, maxAttempts: nat, end: State)
    requires s.job.Held?
  {
    && end.attempt == s.attempt && end.free == s.free
    && (!c.Answer? && !c.Recovery? ==> end.debits == s.debits)
    && match c
       case NoMaterials => EndsAs(end, Failed, s.charged)
       case FreeAnswer => EndsAs(end, Succeeded, Some(0))
       case FreeFailure(canceledCode, retryable) => FailsBy(s, end, canceledCode, retryable, maxAttempts)
       case Refusal => EndsAs(end, Blocked, s.charged)
       case Crowd => GoesBack(s, end, maxAttempts)
       case Answer(payment) => PaidBy(s, end, payment)
       case Failure(canceledCode, retryable) =>
         FailsBy(s, end, canceledCode, retryable, maxAttempts) && HasAnchor(end, s.attempt, Broken)
       case Stored(truncated) =>
         if truncated then EndsAs(end, Failed, s.charged) else EndsAs(end, Succeeded, Some(0))
       case InProgress => GoesBack(s, end, maxAttempts)
       case Recovery(payment) => PaidBy(s, end, payment)
  }

  /** The last steps: a report and the end of the job, or the way back. */
  function Ends(s: State): seq<Action>
    requires s.job.Held?
  {
    if s.job.at.Raised? then [RetryOrFail, FailEntity] else [Finish, EndJob]
  }

  // ------------------------------------------------------------------ one step after another

  lemma RunFirst(s: State, a: Action, more: seq<Action>, maxAttempts: nat)
    ensures Run(s, [a] + more, maxAttempts) == Run(Step(s, a, maxAttempts), more, maxAttempts)
  {
    hide Step;
    RunOn(s, [a], more, maxAttempts);
    NoActions(s, maxAttempts);
    assert [] + [a] == [a];
    RunNext(s, [], a, maxAttempts);
  }

  lemma RunTwo(s: State, a: Action, b: Action, maxAttempts: nat)
    ensures Run(s, [a, b], maxAttempts) == Step(Step(s, a, maxAttempts), b, maxAttempts)
  {
    hide Step;
    assert [a, b] == [a] + [b];
    RunFirst(s, a, [b], maxAttempts);
    assert [] + [b] == [b];
    RunNext(Step(s, a, maxAttempts), [], b, maxAttempts);
    NoActions(Step(s, a, maxAttempts), maxAttempts);
  }

  lemma RunOne(s: State, a: Action, maxAttempts: nat)
    ensures Run(s, [a], maxAttempts) == Step(s, a, maxAttempts)
  {
    hide Step;
    assert [] + [a] == [a];
    RunNext(s, [], a, maxAttempts);
    NoActions(s, maxAttempts);
  }

  /** The beginning of every run of a message that is under way. */
  lemma ContextIsBuilt(s: State, usable: bool, maxAttempts: nat)
    requires s.job.Held? && s.job.at.Claimed? && IsUnderWay(s.phase)
    ensures Run(s, [Start(false), BuildContext(usable)], maxAttempts) ==
            s.(phase := Running,
               job := Held(s.job.attempts,
                           if !usable then Closing(Failed, None, None)
                           else if s.free then ProvidingFree else Asking(s.attempt)))
  {
    RunTwo(s, Start(false), BuildContext(usable), maxAttempts);
  }

  /** A report of a message that runs. */
  lemma ReportIsMade(s: State, maxAttempts: nat)
    requires s.job.Held? && s.job.at.Closing? && s.phase.Running?
    ensures Run(s, [Finish, EndJob], maxAttempts) ==
            s.(phase := s.job.at.phase, charged := if s.job.at.charged.Some? then s.job.at.charged else s.charged,
               job := NoJob)
  {
    RunTwo(s, Finish, EndJob, maxAttempts);
  }

  /** The way back of a message that runs. */
  lemma JobGoesBack(s: State, maxAttempts: nat)
    requires s.job.Held? && s.job.at.Raised? && s.phase.Running? && s.failing == 0
    ensures Run(s, [RetryOrFail, FailEntity], maxAttempts) ==
            if s.job.attempts < maxAttempts then s.(job := Waiting(s.job.attempts))
            else s.(phase := Failed, job := NoJob)
  {
    RunTwo(s, RetryOrFail, FailEntity, maxAttempts);
  }

  // ------------------------------------------------------------------ up to the report

  lemma RunThree(s: State, a: Action, b: Action, c: Action, maxAttempts: nat)
    ensures Run(s, [a, b, c], maxAttempts) == Step(Step(Step(s, a, maxAttempts), b, maxAttempts), c, maxAttempts)
  {
    hide Step;
    assert [a, b, c] == [a] + [b, c];
    RunFirst(s, a, [b, c], maxAttempts);
    RunTwo(Step(s, a, maxAttempts), b, c, maxAttempts);
  }

  function FailurePoint(s: State, canceledCode: bool, retryable: bool, maxAttempts: nat): Point
    requires s.job.Held?
  {
    if canceledCode then Closing(Canceled, None, None)
    else if retryable && s.job.attempts < maxAttempts then Raised
    else Closing(Failed, None, None)
  }

  lemma FreeRuns(s: State, c: Course, maxAttempts: nat)
    requires s.job.Held? && s.phase.Running? && s.job.at.ProvidingFree? && (c.FreeAnswer? || c.FreeFailure?)
    ensures Run(s, StepsOf(c), maxAttempts) ==
            At(s, if c.FreeAnswer? then Closing(Succeeded, Some(0), None)
                  else FailurePoint(s, c.canceledCode, c.retryable, maxAttempts))
  {
    if c.FreeAnswer? {
      RunOne(s, ProviderReturns(true), maxAttempts);
    } else {
      RunTwo(s, ProviderReturns(false), DecideFailure(c.canceledCode, c.retryable), maxAttempts);
    }
  }

  lemma GateAnswers(s: State, c: Course, maxAttempts: nat)
    requires s.job.Held? && s.phase.Running? && s.job.at == Asking(s.attempt) && !s.free && IsPossible(s, c)
    requires c.Refusal? || c.Crowd? || c.Stored? || c.InProgress?
    ensures Run(s, StepsOf(c), maxAttempts) ==
            At(s, match c
                  case Refusal => Closing(Blocked, None, None)
                  case Stored(truncated) =>
                    if truncated then Closing(Failed, None, None) else Closing(Succeeded, Some(0), Some(s.attempt))
                  case _ => Raised)
  {
    match c
    case Refusal => RunOne(s, RunGate(Denied), maxAttempts);
    case Crowd => RunOne(s, RunGate(TooManyInflight), maxAttempts);
    case Stored(truncated) => RunOne(s, RunGate(Allowed(truncated)), maxAttempts);
    case InProgress => RunTwo(s, RunGate(Allowed(false)), RecoverOrphan(false), maxAttempts);
  }

  /** The state after a settlement under a fresh key. */
  function PaidState(s: State, payment: Payment): State
    requires s.job.Held?
  {
    var credits := CreditsOf(payment);
    s.(job := Held(s.job.attempts, Closing(Succeeded, Some(credits), Some(s.attempt))),
       anchors := s.anchors[s.attempt := Completed],
       debits := if credits > 0 then s.debits[s.attempt := credits] else s.debits)
  }

  lemma SettlementComes(s: State, payment: Payment, maxAttempts: nat)
    requires s.job.Held? && s.job.at == Asking(s.attempt) && IsFresh(s) && s.attempt !in s.debits
    ensures Run(s, StepsOf(Answer(payment)), maxAttempts) == PaidState(s, payment)
  {
    hide Step;
    RunThree(s, RunGate(Allowed(false)), ProviderReturns(true), Settle(payment), maxAttempts);
    GateOpens(s, maxAttempts);
    ProviderAnswers(Step(s, RunGate(Allowed(false)), maxAttempts), Settle(payment), maxAttempts);
    assert s.anchors[s.attempt := InFlight][s.attempt := Completed] == s.anchors[s.attempt := Completed];
  }

  lemma ProviderAnswers(s: State, a: Action, maxAttempts: nat)
    requires s.job.Held? && s.job.at == Providing(s.attempt) && a.Settle? && s.attempt !in s.debits
    ensures Step(Step(s, ProviderReturns(true), maxAttempts), a, maxAttempts) == PaidState(s, a.payment)
  {}

  lemma FailureComes(s: State, canceledCode: bool, retryable: bool, maxAttempts: nat)
    requires s.job.Held? && s.phase.Running? && s.job.at == Asking(s.attempt) && IsFresh(s)
    ensures Run(s, StepsOf(Failure(canceledCode, retryable)), maxAttempts) ==
            At(s.(anchors := s.anchors[s.attempt := Broken]), FailurePoint(s, canceledCode, retryable, maxAttempts))
  {
    hide Step;
    var decide := DecideFailure(canceledCode, retryable);
    RunThree(s, RunGate(Allowed(false)), ProviderReturns(false), decide, maxAttempts);
    GateOpens(s, maxAttempts);
    ProviderFails(Step(s, RunGate(Allowed(false)), maxAttempts), decide, maxAttempts);
    assert s.anchors[s.attempt := InFlight][s.attempt := Broken] == s.anchors[s.attempt := Broken];
  }

  lemma GateOpens(s: State, maxAttempts: nat)
    requires s.job.Held? && s.job.at == Asking(s.attempt) && IsFresh(s)
    ensures Step(s, RunGate(Allowed(false)), maxAttempts) ==
            At(s.(anchors := s.anchors[s.attempt := InFlight]), Providing(s.attempt))
  {}

  lemma ProviderFails(s: State, a: Action, maxAttempts: nat)
    requires s.job.Held? && s.phase.Running? && s.job.at == Providing(s.attempt) && a.DecideFailure?
    ensures Step(Step(s, ProviderReturns(false), maxAttempts), a, maxAttempts) ==
            At(s.(anchors := s.anchors[s.attempt := Broken]), FailurePoint(s, a.canceledCode, a.retryable, maxAttempts))
  {}

  lemma RecoveryComes(s: State, payment: Payment, maxAttempts: nat)
    requires s.job.Held? && s.job.at == Asking(s.attempt)
    requires HasAnchor(s, s.attempt, InFlight) && s.attempt !in s.debits
    ensures Run(s, StepsOf(Recovery(payment)), maxAttempts) == PaidState(s, payment)
  {
    var again := StepsOf(Answer(payment));
    var first := [RunGate(Allowed(false)), RecoverOrphan(true)];
    assert StepsOf(Recovery(payment)) == first + again;
    RunOn(s, first, again, maxAttempts);
    RunTwo(s, RunGate(Allowed(false)), RecoverOrphan(true), maxAttempts);
    var broken := Run(s, first, maxAttempts);
    assert broken == At(s.(anchors := s.anchors[s.attempt := Broken]), Asking(s.attempt));
    SettlementComes(broken, payment, maxAttempts);
    assert s.anchors[s.attempt := Broken][s.attempt := Completed] == s.anchors[s.attempt := Completed];
  }

  // ------------------------------------------------------------------ the whole run

  function Script(s: State, c: Course, maxAttempts: nat): seq<Action> {
    var first := [Start(false), BuildContext(!c.NoMaterials?)] + StepsOf(c);
    var before := Run(s, first, maxAttempts);
    first + if before.job.Held? then Ends(before) else []
  }

  predicate IsPaidAs(s: State, before: State, payment: Payment)
    requires s.job.Held?
  {
    var paid := PaidState(s, payment);
    before.job == paid.job && before.anchors == paid.anchors && before.debits == paid.debits
  }

  /** Where the worker stands when its course is run. */
  predicate IsReached(s: State, before: State, c: Course, maxAttempts: nat)
    requires s.job.Held? && before.job.Held?
  {
    match c
    case NoMaterials => before.job.at == Closing(Failed, None, None)
    case FreeAnswer => before.job.at == Closing(Succeeded, Some(0), None)
    case FreeFailure(canceled, retryable) => before.job.at == FailurePoint(s, canceled, retryable, maxAttempts)
    case Refusal => before.job.at == Closing(Blocked, None, None)
    case Crowd => before.job.at.Raised?
    case Answer(payment) => IsPaidAs(s, before, payment)
    case Failure(canceled, retryable) =>
      before.job.at == FailurePoint(s, canceled, retryable, maxAttempts) && HasAnchor(before, s.attempt, Broken)
    case Stored(truncated) =>
      before.job.at ==
        if truncated then Closing(Failed, None, None) else Closing(Succeeded, Some(0), Some(s.attempt))
    case InProgress => before.job.at.Raised?
    case Recovery(payment) => IsPaidAs(s, before, payment)
  }

  lemma ReportComes(s: State, before: State, c: Course, maxAttempts: nat)
    requires s.job.Held? && before.job.Held? && before.job.attempts == s.job.attempts && before.phase.Running?
    requires before.attempt == s.attempt && before.free == s.free && before.charged == s.charged && before.failing == 0
    requires !c.Answer? && !c.Recovery? ==> before.debits == s.debits
    requires IsReached(s, before, c, maxAttempts)
    ensures ComesTo(s, c, maxAttempts, Run(before, Ends(before), maxAttempts))
  {
    hide Run;
    if before.job.at.Raised? { JobGoesBack(before, maxAttempts); } else { ReportIsMade(before, maxAttempts); }
  }

  /**
   * EVERY COURSE. A worker that is left alone brings a message under way to the end that its course calls for:
   * succeeded with the credits of its debit, failed, blocked, canceled, or back in the queue.
   */
  lemma CourseComesTo(s: State, c: Course, maxAttempts: nat)
    requires s.job.Held? && s.job.at.Claimed? && IsUnderWay(s.phase) && s.failing == 0 && IsPossible(s, c)
    ensures ComesTo(s, c, maxAttempts, Run(s, Script(s, c, maxAttempts), maxAttempts))
  {
    hide Run, ComesTo;
    var opening := [Start(false), BuildContext(!c.NoMaterials?)];
    ContextIsBuilt(s, !c.NoMaterials?, maxAttempts);
    var context := Run(s, opening, maxAttempts);
    RunOn(s, opening, StepsOf(c), maxAttempts);
    var before := Run(context, StepsOf(c), maxAttempts);
    match c {
      case NoMaterials => NoActions(context, maxAttempts);
      case FreeAnswer => FreeRuns(context, c, maxAttempts);
      case FreeFailure(_, _) => FreeRuns(context, c, maxAttempts);
      case Answer(p) => SettlementComes(context, p, maxAttempts);
      case Failure(canceled, retryable) => FailureComes(context, canceled, retryable, maxAttempts);
      case Recovery(p) => RecoveryComes(context, p, maxAttempts);
      case _ => GateAnswers(context, c, maxAttempts);
    }
    ReportComes(s, before, c, maxAttempts);
    RunOn(s, opening + StepsOf(c), Ends(before), maxAttempts);
  }

  /** A message that is not under way, or whose topic is gone, is left as it is. */
  lemma LeftAlone(s: State, topicGone: bool, maxAttempts: nat)
    requires s.job.Held? && s.job.at.Claimed? && (!IsUnderWay(s.phase) || topicGone)
    ensures Run(s, [Start(topicGone), EndJob], maxAttempts) == s.(job := NoJob)
  {
    RunTwo(s, Start(topicGone), EndJob, maxAttempts);
  }

  // ------------------------------------------------------------------ what the user's requests lead to

  /** Nothing is at work for the message, and nothing waits. */
  predicate IsIdle(s: State) { s.job.NoJob? && s.failing == 0 }

  /** Without a job, and without a request of the user, nothing happens to a message. */
  lemma {:induction false} IdleStays(s: State, actions: seq<Action>, maxAttempts: nat)
    requires IsIdle(s) && forall a :: a in actions ==> !a.Retry? && !a.Cancel?
    ensures Run(s, actions, maxAttempts) == s
  {
    hide WorkerStep;
    if |actions| > 0 { IdleStays(s, actions[..|actions| - 1], maxAttempts); }
  }

  /** A cancellation of a message that is not under way is refused. */
  lemma {:induction false} OverStays(s: State, actions: seq<Action>, maxAttempts: nat)
    requires IsIdle(s) && !IsUnderWay(s.phase) && forall a :: a in actions ==> !a.Retry?
    ensures Run(s, actions, maxAttempts) == s
  {
    hide WorkerStep;
    if |actions| > 0 { OverStays(s, actions[..|actions| - 1], maxAttempts); }
  }

  /** BLOCKED. A question that is denied, and not free, is blocked for good, or until the user asks again. */
  lemma DeniedIsBlocked(actions: seq<Action>, maxAttempts: nat)
    requires forall a :: a in actions ==> !a.Retry?
    ensures Life(true, false, actions, maxAttempts) == State(Blocked, 1, false, None, NoJob, map[], map[], 0)
  {
    OverStays(Ask(true, false), actions, maxAttempts);
  }

  /** ASKED. Any other question is at once there for a worker, at its first attempt, with nothing anchored or paid. */
  lemma AskedIsWorkedOn(denied: bool, free: bool, maxAttempts: nat)
    requires !denied || free
    ensures var s := Life(denied, free, [Claim], maxAttempts);
            && s.job == Held(1, Claimed) && s.phase.Queued? && s.attempt == 1 && s.free == free
            && s.charged == None && s.anchors == map[] && s.debits == map[] && s.failing == 0
  {
    RunOne(Ask(denied, free), Claim, maxAttempts);
  }

  /** CANCELED IN TIME. A message whose job still waits is canceled with its job, and no worker ever sees it. */
  lemma WaitingIsDropped(s: State, actions: seq<Action>, maxAttempts: nat)
    requires IsUnderWay(s.phase) && s.job.Waiting? && s.failing == 0
    requires forall a :: a in actions ==> !a.Retry?
    ensures Run(s, [Cancel] + actions, maxAttempts) == s.(phase := Canceled, job := NoJob)
  {
    hide Run;
    RunFirst(s, Cancel, actions, maxAttempts);
    OverStays(s.(phase := Canceled, job := NoJob), actions, maxAttempts);
  }

  /** CANCELED TOO LATE. A job that has started goes on, with the cancellation noted on the message. */
  lemma StartedGoesOn(s: State, maxAttempts: nat)
    requires IsUnderWay(s.phase) && (s.job.Held? || s.job.Orphaned?)
    ensures Run(s, [Cancel], maxAttempts) == s.(phase := Canceled)
  {
    RunOne(s, Cancel, maxAttempts);
  }

  /** ASKED AGAIN. A message that failed, was blocked or was canceled, and has no job, starts a new attempt: blocked
      if it is denied and not free, and otherwise there for a worker, with nothing charged. */
  lemma RetriedIsWorkedOn(s: State, denied: bool, free: bool, maxAttempts: nat)
    requires MayRetry(s.phase) && s.job.NoJob?
    ensures var after := Run(s, [Retry(denied, free), Claim], maxAttempts);
            && after.attempt == s.attempt + 1 && after.free == free && after.charged == None
            && after.anchors == s.anchors && after.debits == s.debits
            && (if denied && !free then after.phase.Blocked? && after.job.NoJob?
                else after.phase.Queued? && after.job == Held(1, Claimed))
  {
    RunTwo(s, Retry(denied, free), Claim, maxAttempts);
  }

  /** A message under way, or one that succeeded, cannot be asked again. */
  lemma NoRetry(s: State, denied: bool, free: bool, maxAttempts: nat)
    requires !MayRetry(s.phase)
    ensures Run(s, [Retry(denied, free)], maxAttempts) == s
  {
    RunOne(s, Retry(denied, free), maxAttempts);
  }

  /** THE WHOLE WAY. A billed question that is answered ends as succeeded, with the debit of its one attempt. */
  lemma AnsweredQuestion(payment: Payment, maxAttempts: nat)
    ensures var s := Life(false, false, [Claim], maxAttempts);
            var end := Run(s, Script(s, Answer(payment), maxAttempts), maxAttempts);
            && EndsAs(end, Succeeded, Some(CreditsOf(payment)))
            && end.debits == if CreditsOf(payment) > 0 then map[1 := CreditsOf(payment)] else map[]
  {
    hide Run, Script;
    AskedIsWorkedOn(false, false, maxAttempts);
    CourseComesTo(Life(false, false, [Claim], maxAttempts), Answer(payment), maxAttempts);
  }
}
