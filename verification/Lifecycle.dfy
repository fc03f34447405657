/** One question, or one summary, from asking to its end: the user, the queue, the worker and the charge. */
module Lifecycle {
  import opened Strings

  datatype Phase = Queued | Running | Succeeded | Failed | Blocked | Canceled

  /** The generation of one attempt of the message. */
  datatype Anchor = InFlight | Completed | Broken

  /** Where the worker that holds the job stands between its commits. */
  datatype Point =
    | Claimed
    | Reading(attempt: nat, free: bool)
    | Asking(attempt: nat)
    | Providing(attempt: nat)
    | ProvidingFree
    | Refused(attempt: nat)
    | Settling(attempt: nat)
    | Failing
    | Closing(phase: Phase, charged: Option<int>, generation: Option<nat>)
    | Ending
    | Raised

  /** `Orphaned` is a running job whose worker is gone; it can be claimed when its lease has run out. */
  datatype JobState = NoJob | Waiting(attempts: nat) | Held(attempts: nat, at: Point) | Orphaned(attempts: nat)

  /**
   * The row of the message, its active job, its generations by attempt and the debits under their
   * keys; `failing` counts workers that gave up their job and have still to mark the message.
   */
  datatype State = State(phase: Phase, attempt: nat, free: bool, charged: Option<int>, job: JobState,
                         anchors: map<nat, Anchor>, debits: map<nat, int>, failing: nat)

  /** How a settlement goes: the trial, nothing to pay or nothing to pay with, or a debit. */
  datatype Payment = ByTrial | Unbilled | Debit(credits: int)

  /** What the gate and the fuse say; `truncated` tells whether a stored result was too large to keep. */
  datatype Gate = Allowed(truncated: bool) | Denied | TooManyInflight

  datatype Action =
    | Cancel
    | Retry(denied: bool, free: bool)
    | Claim
    | Start(topicGone: bool)
    | BuildContext(usable: bool)
    | RunGate(gate: Gate)
    | RecoverOrphan(stale: bool)
    | ProviderReturns(ok: bool)
    | DecideFailure(canceledCode: bool, retryable: bool)
    | Settle(payment: Payment)
    | Finish
    | EndJob
    | Raise
    | RetryOrFail
    | FailEntity
    | Die
    | DieFailing

  // ------------------------------------------------------------------ the user

  predicate IsUnderWay(p: Phase) { p.Queued? || p.Running? }

  predicate MayRetry(p: Phase) { p.Failed? || p.Blocked? || p.Canceled? }

  /** `ask`: the message as it is inserted. */
  function Ask(denied: bool, free: bool): State {
    var blocked := denied && !free;
    State(if blocked then Blocked else Queued, 1, free, None, if blocked then NoJob else Waiting(0), map[], map[], 0)
  }

  /** `cancel`; a job that has started goes on. */
  function CancelMessage(s: State): Option<State> {
    if IsUnderWay(s.phase) then Some(s.(phase := Canceled, job := if s.job.Waiting? then NoJob else s.job)) else None
  }

  /** `retry`; a job that is still active is not queued again. */
  function RetryMessage(s: State, denied: bool, free: bool): Option<State> {
    if !MayRetry(s.phase) then None
    else
      var blocked := denied && !free;
      Some(s.(phase := if blocked then Blocked else Queued, attempt := s.attempt + 1, free := free, charged := None,
              job := if !blocked && s.job.NoJob? then Waiting(0) else s.job))
  }

  // ------------------------------------------------------------------ the worker

  function At(s: State, p: Point): State
    requires s.job.Held?
  {
    s.(job := Held(s.job.attempts, p))
  }

  function StartRun(s: State, topicGone: bool): State
    requires s.job.Held?
  {
    if !IsUnderWay(s.phase) || topicGone then At(s, Ending)
    else At(s.(phase := Running), Reading(s.attempt, s.free))
  }

  function ContextBuilt(s: State, p: Point, usable: bool): State
    requires s.job.Held? && p.Reading?
  {
    if !usable then At(s, Closing(Failed, None, None))
    else if p.free then At(s, ProvidingFree)
    else At(s, Asking(p.attempt))
  }

  /** The gate, the fuse and the anchor of `run`, for the key of this attempt. */
  function AskGate(s: State, attempt: nat, gate: Gate): State
    requires s.job.Held?
  {
    match gate
    case Denied => At(s, Closing(Blocked, None, None))
    case TooManyInflight => At(s, Raised)
    case Allowed(truncated) =>
      if attempt !in s.anchors || s.anchors[attempt].Broken? then
        At(s.(anchors := s.anchors[attempt := InFlight]), Providing(attempt))
      else if s.anchors[attempt].InFlight? then At(s, Refused(attempt))
      else if truncated then At(s, Closing(Failed, None, None))
      else At(s, Closing(Succeeded, Some(0), Some(attempt)))
  }

  /** A call already in progress: an orphan past the lease is failed and run again. */
  function Recover(s: State, attempt: nat, stale: bool): State
    requires s.job.Held?
  {
    if stale then At(s.(anchors := s.anchors[attempt := Broken]), Asking(attempt)) else At(s, Raised)
  }

  /** The provider answers; the failure of a billed call is recorded. */
  function ProviderReturned(s: State, p: Point, ok: bool): State
    requires s.job.Held? && (p.Providing? || p.ProvidingFree?)
  {
    if p.ProvidingFree? then At(s, if ok then Closing(Succeeded, Some(0), None) else Failing)
    else if ok then At(s, Settling(p.attempt))
    else At(s.(anchors := s.anchors[p.attempt := Broken]), Failing)
  }

  /** `_settle` and `finalize`; a key already used for another amount aborts. */
  function SettleRun(s: State, attempt: nat, payment: Payment): State
    requires s.job.Held?
  {
    var done := s.(anchors := s.anchors[attempt := Completed]);
    match payment
    case Debit(credits) =>
      if credits <= 0 then At(done, Closing(Succeeded, Some(0), Some(attempt)))
      else if attempt !in s.debits then
        At(done.(debits := s.debits[attempt := credits]), Closing(Succeeded, Some(credits), Some(attempt)))
      else if s.debits[attempt] == credits then At(done, Closing(Succeeded, Some(credits), Some(attempt)))
      else At(s, Raised)
    case _ => At(done, Closing(Succeeded, Some(0), Some(attempt)))
  }

  /** `_on_failure`. */
  function Decide(s: State, canceledCode: bool, retryable: bool, maxAttempts: nat): State
    requires s.job.Held?
  {
    if s.phase.Canceled? || canceledCode then At(s, Closing(Canceled, None, None))
    else if retryable && s.job.attempts < maxAttempts then At(s, Raised)
    else At(s, Closing(Failed, None, None))
  }

  /** `_finish`: only a success overrules a cancellation. */
  function Close(s: State, phase: Phase, charged: Option<int>): State {
    if s.phase.Canceled? && !phase.Succeeded? then s
    else s.(phase := phase, charged := if charged.Some? then charged else s.charged)
  }

  /** `_retry_or_fail`. */
  function GiveUpOrRetry(s: State, maxAttempts: nat): State
    requires s.job.Held?
  {
    if s.job.attempts < maxAttempts then s.(job := Waiting(s.job.attempts))
    else s.(job := NoJob, failing := s.failing + 1)
  }

  /** `_fail_entity`, a transaction of its own after the job was given up. */
  function FailMessage(s: State): State
    requires s.failing > 0
  {
    s.(phase := if IsUnderWay(s.phase) then Failed else s.phase, failing := s.failing - 1)
  }

  /** A settlement is committed and the message is not yet finished. */
  predicate IsSettled(s: State) {
    s.job.Held? && s.job.at.Closing? && s.job.at.generation.Some?
  }

  /** The same, with a debit. */
  predicate IsPaid(s: State) { IsSettled(s) && s.job.at.charged.Some? && s.job.at.charged.value > 0 }

  /** The settled attempt is the one the user waits for. */
  predicate IsCurrent(s: State) {
    IsSettled(s) && s.job.at.generation.value == s.attempt && IsUnderWay(s.phase)
  }

  /** An exception that the worker catches, or the end of the worker. */
  predicate IsInterrupt(a: Action) { a.Raise? || a.Die? }

  /** One step of the worker that holds the job; an exception or its death may come at any point. */
  function WorkerStep(s: State, a: Action, maxAttempts: nat): State
    requires s.job.Held?
  {
    var at := s.job.at;
    match a
    case Start(topicGone) => if at.Claimed? then StartRun(s, topicGone) else s
    case BuildContext(usable) => if at.Reading? then ContextBuilt(s, at, usable) else s
    case RunGate(gate) => if at.Asking? then AskGate(s, at.attempt, gate) else s
    case RecoverOrphan(stale) => if at.Refused? then Recover(s, at.attempt, stale) else s
    case ProviderReturns(ok) => if at.Providing? || at.ProvidingFree? then ProviderReturned(s, at, ok) else s
    case DecideFailure(canceledCode, retryable) =>
      if at.Failing? then Decide(s, canceledCode, retryable, maxAttempts) else s
    case Settle(payment) => if at.Settling? then SettleRun(s, at.attempt, payment) else s
    case Finish => if at.Closing? then At(Close(s, at.phase, at.charged), Ending) else s
    case EndJob => if at.Ending? then s.(job := NoJob) else s
    case RetryOrFail => if at.Raised? then GiveUpOrRetry(s, maxAttempts) else s
    case Raise => At(s, Raised)
    case Die => s.(job := Orphaned(s.job.attempts))
    case _ => s
  }

  /** A request that is refused changes nothing. */
  function OrElse(accepted: Option<State>, s: State): State {
    if accepted.Some? then accepted.value else s
  }

  /** One committed step; one that is not possible does not happen. */
  function Step(s: State, a: Action, maxAttempts: nat): State {
    match a
    case Cancel => OrElse(CancelMessage(s), s)
    case Retry(denied, free) => OrElse(RetryMessage(s, denied, free), s)
    case Claim => if s.job.Waiting? || s.job.Orphaned? then s.(job := Held(s.job.attempts + 1, Claimed)) else s
    case FailEntity => if s.failing > 0 then FailMessage(s) else s
    case DieFailing => if s.failing > 0 then s.(failing := s.failing - 1) else s
    case _ => if s.job.Held? then WorkerStep(s, a, maxAttempts) else s
  }

  function Run(s: State, actions: seq<Action>, maxAttempts: nat): State {
    if |actions| == 0 then s
    else Step(Run(s, actions[..|actions| - 1], maxAttempts), actions[|actions| - 1], maxAttempts)
  }

  // ------------------------------------------------------------------ the shape of every state

  /** A worker at one of these points has nothing of its own to charge or to report. */
  predicate IsIdlePoint(p: Point) { p.Claimed? || p.Ending? || p.Raised? }

  /** Once the message succeeded no worker is under way with it. */
  predicate IsQuiet(job: JobState) { job.Held? ==> IsIdlePoint(job.at) }

  /** The attempt is not ahead of the message, and is billed as long as it is the message's own. */
  predicate IsBilled(s: State, n: nat) { n <= s.attempt && (n == s.attempt ==> !s.free) }

  predicate HasAnchor(s: State, n: nat, anchor: Anchor) { n in s.anchors && s.anchors[n] == anchor }

  /** What a worker knows at its point is so. */
  predicate PointFits(s: State, p: Point) {
    match p
    case Reading(n, free) => n <= s.attempt && (n == s.attempt ==> free == s.free)
    case Asking(n) => IsBilled(s, n)
    case Providing(n) => IsBilled(s, n) && HasAnchor(s, n, InFlight)
    case Refused(n) => IsBilled(s, n) && HasAnchor(s, n, InFlight)
    case Settling(n) => IsBilled(s, n) && HasAnchor(s, n, InFlight)
    case Closing(phase, _, generation) =>
      && !IsUnderWay(phase)
      && (generation.Some? ==>
            phase.Succeeded? && IsBilled(s, generation.value) && HasAnchor(s, generation.value, Completed))
    case _ => true
  }

  /** Attempts are counted up; a fresh one has neither an anchor nor a debit. */
  ghost predicate PastOnly(s: State) {
    && (forall n :: n in s.anchors ==> n <= s.attempt)
    && (forall n :: n in s.debits ==> n <= s.attempt)
  }

  ghost predicate WellFormed(s: State) {
    PastOnly(s) && (s.job.Held? ==> PointFits(s, s.job.at)) && (s.phase.Succeeded? ==> IsQuiet(s.job))
  }

  lemma GateFits(s: State, attempt: nat, gate: Gate)
    requires WellFormed(s) && s.job.Held? && s.job.at == Asking(attempt)
    ensures WellFormed(AskGate(s, attempt, gate))
  {}

  lemma SettlementFits(s: State, attempt: nat, payment: Payment)
    requires WellFormed(s) && s.job.Held? && s.job.at == Settling(attempt)
    ensures WellFormed(SettleRun(s, attempt, payment))
  {}

  lemma RecoveryFits(s: State, attempt: nat, stale: bool)
    requires WellFormed(s) && s.job.Held? && s.job.at == Refused(attempt)
    ensures WellFormed(Recover(s, attempt, stale))
  {}

  lemma ProviderFits(s: State, p: Point, ok: bool)
    requires WellFormed(s) && s.job.Held? && s.job.at == p && (p.Providing? || p.ProvidingFree?)
    ensures WellFormed(ProviderReturned(s, p, ok))
  {}

  lemma CloseFits(s: State)
    requires WellFormed(s) && s.job.Held? && s.job.at.Closing?
    ensures WellFormed(At(Close(s, s.job.at.phase, s.job.at.charged), Ending))
  {}

  lemma StartFits(s: State, topicGone: bool)
    requires WellFormed(s) && s.job.Held?
    ensures WellFormed(StartRun(s, topicGone))
  {}

  lemma GivingUpFits(s: State, maxAttempts: nat)
    requires WellFormed(s) && s.job.Held?
    ensures WellFormed(GiveUpOrRetry(s, maxAttempts))
  {}

  /** Moves of the worker alone. */
  lemma MoveFits(s: State, p: Point)
    requires WellFormed(s) && s.job.Held? && PointFits(s, p) && (s.phase.Succeeded? ==> IsIdlePoint(p))
    ensures WellFormed(At(s, p))
  {}

  lemma NoWorkerFits(s: State, job: JobState)
    requires WellFormed(s) && !job.Held?
    ensures WellFormed(s.(job := job))
  {}

  lemma PointOf(s: State)
    requires WellFormed(s) && s.job.Held?
    ensures PointFits(s, s.job.at) && (s.phase.Succeeded? ==> IsIdlePoint(s.job.at))
  {}

  lemma WorkerStepIsWellFormed(s: State, a: Action, maxAttempts: nat)
    requires WellFormed(s) && s.job.Held?
    ensures WellFormed(WorkerStep(s, a, maxAttempts))
  {
    hide WellFormed, AskGate, SettleRun, Close, StartRun, GiveUpOrRetry, ProviderReturned, Recover, HasAnchor, IsBilled;
    PointOf(s);
    match a
    case Start(topicGone) => StartFits(s, topicGone);
    case RunGate(gate) => if s.job.at.Asking? { GateFits(s, s.job.at.attempt, gate); }
    case Settle(payment) => if s.job.at.Settling? { SettlementFits(s, s.job.at.attempt, payment); }
    case Finish => if s.job.at.Closing? { CloseFits(s); }
    case RetryOrFail => GivingUpFits(s, maxAttempts);
    case EndJob => NoWorkerFits(s, NoJob);
    case Die => NoWorkerFits(s, Orphaned(s.job.attempts));
    case RecoverOrphan(stale) => if s.job.at.Refused? { RecoveryFits(s, s.job.at.attempt, stale); }
    case ProviderReturns(ok) => if s.job.at.Providing? || s.job.at.ProvidingFree? { ProviderFits(s, s.job.at, ok); }
    case _ => MoveFits(s, WorkerStep(s, a, maxAttempts).job.at);
  }

  lemma StepIsWellFormed(s: State, a: Action, maxAttempts: nat)
    requires WellFormed(s)
    ensures WellFormed(Step(s, a, maxAttempts))
  {
    hide WorkerStep;
    if s.job.Held? { WorkerStepIsWellFormed(s, a, maxAttempts); }
  }

  lemma {:induction false} RunIsWellFormed(s: State, actions: seq<Action>, maxAttempts: nat)
    requires WellFormed(s)
    ensures WellFormed(Run(s, actions, maxAttempts))
  {
    hide WellFormed, Step;
    if |actions| > 0 {
      RunIsWellFormed(s, actions[..|actions| - 1], maxAttempts);
      StepIsWellFormed(Run(s, actions[..|actions| - 1], maxAttempts), actions[|actions| - 1], maxAttempts);
    }
  }

  // ------------------------------------------------------------------ the money

  /** The debits are none, or the one of this attempt and amount. */
  predicate DebitsAre(debits: map<nat, int>, attempt: nat, credits: int) {
    if credits == 0 then debits == map[] else debits == map[attempt := credits]
  }

  ghost predicate IsCharged(debits: map<nat, int>, charged: Option<int>) {
    charged.Some? && charged.value >= 0 && exists attempt :: DebitsAre(debits, attempt, charged.value)
  }

  /** Nothing is debited before the settlement, and the message reports it after. */
  ghost predicate Inv(s: State) {
    && WellFormed(s)
    && if s.phase.Succeeded? then IsCharged(s.debits, s.charged)
       else if IsPaid(s) then
         DebitsAre(s.debits, s.job.at.generation.value, s.job.at.charged.value)
       else
         s.debits == map[] &&
         (s.job.Held? && s.job.at.Closing? && s.job.at.phase.Succeeded? ==> s.job.at.charged == Some(0))
  }

  /** The worker is interrupted when the debit is made and the message does not know it yet. */
  predicate Interrupts(s: State, a: Action) { IsInterrupt(a) && IsPaid(s) }

  ghost predicate Uninterrupted(s: State, actions: seq<Action>, maxAttempts: nat) {
    |actions| > 0 ==>
      && Uninterrupted(s, actions[..|actions| - 1], maxAttempts)
      && !Interrupts(Run(s, actions[..|actions| - 1], maxAttempts), actions[|actions| - 1])
  }

  /** After a success the worker only ends its job. */
  lemma QuietWorkerStep(s: State, a: Action, maxAttempts: nat)
    requires s.phase.Succeeded? && IsQuiet(s.job) && s.job.Held?
    ensures var next := WorkerStep(s, a, maxAttempts);
            && next.phase.Succeeded? && IsQuiet(next.job) && next.charged == s.charged && next.debits == s.debits
            && next.attempt == s.attempt
  {
    hide AskGate, Recover, SettleRun, Decide, ContextBuilt, Close;
  }

  lemma QuietStep(s: State, a: Action, maxAttempts: nat)
    requires s.phase.Succeeded? && IsQuiet(s.job)
    ensures var next := Step(s, a, maxAttempts);
            && next.phase.Succeeded? && IsQuiet(next.job) && next.charged == s.charged && next.debits == s.debits
            && next.attempt == s.attempt
  {
    hide WorkerStep;
    if s.job.Held? { QuietWorkerStep(s, a, maxAttempts); }
  }

  lemma WorkerStepKeeps(s: State, a: Action, maxAttempts: nat)
    requires Inv(s) && s.job.Held? && !Interrupts(s, a)
    ensures Inv(WorkerStep(s, a, maxAttempts))
  {
    hide WellFormed;
    WorkerStepIsWellFormed(s, a, maxAttempts);
    if s.phase.Succeeded? {
      hide IsCharged, WorkerStep, IsQuiet;
      SucceededIsQuiet(s);
      QuietWorkerStep(s, a, maxAttempts);
    } else if s.job.at.Closing? && a.Finish? {
      PointOf(s);
      if s.job.at.phase.Succeeded? { ClosedIsCharged(s); }
    } else {
      hide IsCharged;
    }
  }

  lemma SucceededIsQuiet(s: State)
    requires WellFormed(s) && s.phase.Succeeded?
    ensures IsQuiet(s.job)
  {}

  lemma ClosedIsCharged(s: State)
    requires Inv(s) && s.job.Held? && s.job.at.Closing? && s.job.at.phase.Succeeded? && !s.phase.Succeeded?
    ensures IsCharged(s.debits, s.job.at.charged)
  {
    hide WellFormed;
    if IsPaid(s) {
      assert DebitsAre(s.debits, s.job.at.generation.value, s.job.at.charged.value);
    } else {
      assert DebitsAre(s.debits, 0, 0);
    }
  }

  lemma StepKeeps(s: State, a: Action, maxAttempts: nat)
    requires Inv(s) && !Interrupts(s, a)
    ensures Inv(Step(s, a, maxAttempts))
  {
    hide WellFormed, WorkerStep, DebitsAre, IsCharged;
    StepIsWellFormed(s, a, maxAttempts);
    if s.job.Held? { WorkerStepKeeps(s, a, maxAttempts); }
  }

  lemma {:induction false} RunKeeps(s: State, actions: seq<Action>, maxAttempts: nat)
    requires Inv(s) && Uninterrupted(s, actions, maxAttempts)
    ensures Inv(Run(s, actions, maxAttempts))
  {
    hide Inv, Step, Interrupts;
    if |actions| > 0 {
      RunKeeps(s, actions[..|actions| - 1], maxAttempts);
      StepKeeps(Run(s, actions[..|actions| - 1], maxAttempts), actions[|actions| - 1], maxAttempts);
    }
  }

  // ------------------------------------------------------------------ what a run promises

  /** Every state of a message's life, with the user, exceptions, deaths and retries in any order. */
  function Life(denied: bool, free: bool, actions: seq<Action>, maxAttempts: nat): State {
    Run(Ask(denied, free), actions, maxAttempts)
  }

  ghost predicate IsUninterrupted(denied: bool, free: bool, actions: seq<Action>, maxAttempts: nat) {
    Uninterrupted(Ask(denied, free), actions, maxAttempts)
  }

  /** One message is debited at most once, over all its attempts. */
  lemma DebitedAtMostOnce(denied: bool, free: bool, actions: seq<Action>, maxAttempts: nat, a: nat, b: nat)
    requires IsUninterrupted(denied, free, actions, maxAttempts)
    ensures var s := Life(denied, free, actions, maxAttempts);
            a in s.debits && b in s.debits ==> a == b
  {
    hide Run, Uninterrupted, WellFormed;
    AskedIsRight(denied, free);
    RunKeeps(Ask(denied, free), actions, maxAttempts);
  }

  lemma AskedIsRight(denied: bool, free: bool)
    ensures Inv(Ask(denied, free))
  {}

  /** A message that did not succeed has no debit, but for the moment between settling and finishing. */
  lemma NoSuccessNoDebit(denied: bool, free: bool, actions: seq<Action>, maxAttempts: nat)
    requires IsUninterrupted(denied, free, actions, maxAttempts)
    ensures var s := Life(denied, free, actions, maxAttempts);
            !s.phase.Succeeded? && !IsPaid(s) ==> s.debits == map[]
  {
    hide Run, Uninterrupted, WellFormed;
    AskedIsRight(denied, free);
    RunKeeps(Ask(denied, free), actions, maxAttempts);
  }

  /** The credits reported are those of the one debit, or zero without any. */
  ghost predicate Reports(s: State) {
    && s.charged.Some? && (s.debits == map[] <==> s.charged == Some(0))
    && forall n :: n in s.debits ==> s.debits == map[n := s.charged.value]
  }

  lemma ChargedReports(s: State)
    requires IsCharged(s.debits, s.charged)
    ensures Reports(s)
  {
    var attempt :| DebitsAre(s.debits, attempt, s.charged.value);
    assert s.charged.value != 0 ==> attempt in s.debits;
  }

  /** A message that succeeded reports the credits of its one debit, or zero without any. */
  lemma SuccessReportsItsDebit(denied: bool, free: bool, actions: seq<Action>, maxAttempts: nat)
    requires IsUninterrupted(denied, free, actions, maxAttempts)
    ensures var s := Life(denied, free, actions, maxAttempts); s.phase.Succeeded? ==> Reports(s)
  {
    hide Run, Uninterrupted, WellFormed, IsCharged, Reports;
    AskedIsRight(denied, free);
    RunKeeps(Ask(denied, free), actions, maxAttempts);
    var s := Life(denied, free, actions, maxAttempts);
    if s.phase.Succeeded? { ChargedReports(s); }
  }

  /** The moment between settling and finishing ends in success, whatever the user does in it. */
  lemma SettledWillSucceed(s: State, a: Action, maxAttempts: nat)
    requires WellFormed(s) && IsSettled(s) && !IsInterrupt(a)
    ensures var next := Step(s, a, maxAttempts);
            next.phase.Succeeded? || (IsSettled(next) && next.job == s.job)
  {}

  /** Success is final: nothing changes the message or its debits any more, interrupted or not. */
  lemma {:induction false} SuccessIsFinal(s: State, actions: seq<Action>, maxAttempts: nat)
    requires WellFormed(s) && s.phase.Succeeded?
    ensures var after := Run(s, actions, maxAttempts);
            after.phase.Succeeded? && after.charged == s.charged && after.debits == s.debits && after.attempt == s.attempt
  {
    if |actions| > 0 {
      hide Step, WellFormed;
      SuccessIsFinal(s, actions[..|actions| - 1], maxAttempts);
      RunIsWellFormed(s, actions[..|actions| - 1], maxAttempts);
      SucceededIsQuiet(Run(s, actions[..|actions| - 1], maxAttempts));
      QuietStep(Run(s, actions[..|actions| - 1], maxAttempts), actions[|actions| - 1], maxAttempts);
    }
  }

  // ------------------------------------------------------------------ where the promise ends

  /** What the three results say of a state. */
  ghost predicate PromiseKept(s: State) {
    && (forall a, b :: a in s.debits && b in s.debits ==> a == b)
    && (!s.phase.Succeeded? && !IsPaid(s) ==> s.debits == map[])
    && (s.phase.Succeeded? ==> Reports(s))
  }

  lemma InvKeepsPromise(s: State)
    requires Inv(s)
    ensures PromiseKept(s)
  {
    hide WellFormed, Reports;
    if s.phase.Succeeded? { ChargedReports(s); assert Reports(s); AtMostOne(s); }
  }

  lemma AtMostOne(s: State)
    requires Reports(s)
    ensures forall a, b :: a in s.debits && b in s.debits ==> a == b
  {}

  /**
   * EXACTLY UNINTERRUPTED. From a state in order, the promise holds after a step and in everything
   * that can follow without interruption if and only if the step itself is no interruption.
   */
  lemma PromiseKeptExactly(s: State, a: Action, maxAttempts: nat)
    requires Inv(s)
    ensures (forall more :: Uninterrupted(Step(s, a, maxAttempts), more, maxAttempts) ==>
                              PromiseKept(Run(Step(s, a, maxAttempts), more, maxAttempts))) <==>
            !Interrupts(s, a)
  {
    hide Inv, Step, PromiseKept, Run, Uninterrupted, Interrupts;
    var next := Step(s, a, maxAttempts);
    if Interrupts(s, a) {
      InterruptionShows(s, a, maxAttempts);
      NoActions(next, maxAttempts);
    } else {
      StepKeeps(s, a, maxAttempts);
      forall more | Uninterrupted(next, more, maxAttempts) ensures PromiseKept(Run(next, more, maxAttempts)) {
        RunKeeps(next, more, maxAttempts);
        InvKeepsPromise(Run(next, more, maxAttempts));
      }
    }
  }

  lemma NoActions(s: State, maxAttempts: nat)
    ensures Run(s, [], maxAttempts) == s && Uninterrupted(s, [], maxAttempts)
  {}

  /** An interruption is seen at once: there is a debit that the message does not report. */
  lemma InterruptionShows(s: State, a: Action, maxAttempts: nat)
    requires Inv(s) && Interrupts(s, a)
    ensures var next := Step(s, a, maxAttempts);
            && !PromiseKept(next) && !next.phase.Succeeded? && !IsPaid(next)
            && next.debits == s.debits == map[s.job.at.generation.value := s.job.at.charged.value]
  {
    hide WellFormed;
    SucceededIsIdle(s);
    assert s.job.at.generation.value in s.debits;
  }

  lemma SucceededIsIdle(s: State)
    requires WellFormed(s) && s.job.Held? && s.job.at.Closing?
    ensures !s.phase.Succeeded?
  {}

  lemma RunNext(s: State, actions: seq<Action>, a: Action, maxAttempts: nat)
    ensures Run(s, actions + [a], maxAttempts) == Step(Run(s, actions, maxAttempts), a, maxAttempts)
  {
    assert (actions + [a])[..|actions|] == actions;
  }

  lemma {:induction false} RunOn(s: State, first: seq<Action>, more: seq<Action>, maxAttempts: nat)
    ensures Run(s, first + more, maxAttempts) == Run(Run(s, first, maxAttempts), more, maxAttempts)
  {
    hide Step;
    if |more| == 0 {
      assert first + more == first;
    } else {
      RunOn(s, first, more[..|more| - 1], maxAttempts);
      assert (first + more)[..|first + more| - 1] == first + more[..|more| - 1];
    }
  }

  lemma {:induction false} CalmIsUninterrupted(s: State, actions: seq<Action>, maxAttempts: nat)
    requires forall a :: a in actions ==> !IsInterrupt(a)
    ensures Uninterrupted(s, actions, maxAttempts)
  {
    if |actions| > 0 { CalmIsUninterrupted(s, actions[..|actions| - 1], maxAttempts); }
  }

  const TO_GATE: seq<Action> := [Claim, Start(false), BuildContext(true)]

  /** A job is claimed for a message that waits for a billed attempt. */
  lemma ToGate(s: State, maxAttempts: nat)
    requires (s.job.Waiting? || s.job.Orphaned?) && IsUnderWay(s.phase) && !s.free
    ensures Run(s, TO_GATE, maxAttempts) == s.(phase := Running, job := Held(s.job.attempts + 1, Asking(s.attempt)))
  {
    hide Run;
    NoActions(s, maxAttempts);
    assert [] + [TO_GATE[0]] == TO_GATE[..1];
    RunNext(s, [], TO_GATE[0], maxAttempts);
    assert TO_GATE[..1] + [TO_GATE[1]] == TO_GATE[..2];
    RunNext(s, TO_GATE[..1], TO_GATE[1], maxAttempts);
    assert TO_GATE[..2] + [TO_GATE[2]] == TO_GATE;
    RunNext(s, TO_GATE[..2], TO_GATE[2], maxAttempts);
  }

  function ToEnd(credits: int): seq<Action> {
    [RunGate(Allowed(false)), ProviderReturns(true), Settle(Debit(credits)), Finish]
  }

  /** A call with a fresh key, debited. */
  lemma FreshSettlement(s: State, credits: int, maxAttempts: nat)
    requires s.job.Held? && s.job.at == Asking(s.attempt) && credits > 0
    requires s.attempt !in s.anchors && s.attempt !in s.debits
    ensures Run(s, ToEnd(credits)[..3], maxAttempts) ==
            s.(job := Held(s.job.attempts, Closing(Succeeded, Some(credits), Some(s.attempt))),
               anchors := s.anchors[s.attempt := Completed], debits := s.debits[s.attempt := credits])
  {
    hide Run;
    var acts := ToEnd(credits);
    NoActions(s, maxAttempts);
    assert [] + [acts[0]] == acts[..1];
    RunNext(s, [], acts[0], maxAttempts);
    assert acts[..1] + [acts[1]] == acts[..2];
    RunNext(s, acts[..1], acts[1], maxAttempts);
    assert acts[..2] + [acts[2]] == acts[..3];
    RunNext(s, acts[..2], acts[2], maxAttempts);
    assert s.anchors[s.attempt := InFlight][s.attempt := Completed] == s.anchors[s.attempt := Completed];
  }

  /** ... and finished. */
  lemma FreshCall(s: State, credits: int, maxAttempts: nat)
    requires s.job.Held? && s.job.at == Asking(s.attempt) && s.phase.Running? && credits > 0
    requires s.attempt !in s.anchors && s.attempt !in s.debits
    ensures var end := Run(s, ToEnd(credits), maxAttempts);
            end.phase.Succeeded? && end.charged == Some(credits) && end.debits == s.debits[s.attempt := credits]
  {
    hide Run;
    FreshSettlement(s, credits, maxAttempts);
    assert ToEnd(credits)[..3] + [Finish] == ToEnd(credits);
    RunNext(s, ToEnd(credits)[..3], Finish, maxAttempts);
  }

  /** The moment that an interruption needs is reached by the plainest run. */
  lemma PaidIsReached(credits: int, maxAttempts: nat)
    requires credits > 0
    ensures var actions := TO_GATE + ToEnd(credits)[..3];
            && IsUninterrupted(false, false, actions, maxAttempts)
            && IsPaid(Life(false, false, actions, maxAttempts)) && IsCurrent(Life(false, false, actions, maxAttempts))
  {
    hide Run, Uninterrupted;
    var s := Ask(false, false);
    ToGate(s, maxAttempts);
    FreshSettlement(Run(s, TO_GATE, maxAttempts), credits, maxAttempts);
    RunOn(s, TO_GATE, ToEnd(credits)[..3], maxAttempts);
    CalmIsUninterrupted(s, TO_GATE + ToEnd(credits)[..3], maxAttempts);
  }

  const AGAIN: seq<Action> := [RetryOrFail, Cancel, Retry(false, false)]

  /** Whatever the user did before, a cancel and a retry put a new attempt in the queue. */
  lemma AskedAgain(s: State, maxAttempts: nat)
    requires !s.phase.Succeeded? && (s.job.Orphaned? || (s.job.Held? && s.job.at.Raised?))
    ensures var again := Run(s, AGAIN, maxAttempts);
            && again.phase.Queued? && !again.free && again.attempt == s.attempt + 1
            && (again.job.Waiting? || again.job.Orphaned?)
            && again.debits == s.debits && again.anchors == s.anchors
  {
    hide Run;
    NoActions(s, maxAttempts);
    assert [] + [AGAIN[0]] == AGAIN[..1];
    RunNext(s, [], AGAIN[0], maxAttempts);
    assert AGAIN[..1] + [AGAIN[1]] == AGAIN[..2];
    RunNext(s, AGAIN[..1], AGAIN[1], maxAttempts);
    assert AGAIN[..2] + [AGAIN[2]] == AGAIN;
    RunNext(s, AGAIN[..2], AGAIN[2], maxAttempts);
  }

  /**
   * CHARGED TWICE. After any interruption, wherever it comes, a cancel and a retry lead to a second
   * debit under the key of the new attempt, and the message reports only that one.
   */
  lemma InterruptedIsChargedTwice(s: State, a: Action, credits: int, maxAttempts: nat)
    requires Inv(s) && Interrupts(s, a) && credits > 0
    ensures var more := AGAIN + (TO_GATE + ToEnd(credits));
            var next := Step(s, a, maxAttempts);
            var end := Run(next, more, maxAttempts);
            && Uninterrupted(next, more, maxAttempts)
            && end.phase.Succeeded? && end.charged == Some(credits)
            && s.job.at.generation.value != s.attempt + 1
            && end.debits == map[s.job.at.generation.value := s.job.at.charged.value, s.attempt + 1 := credits]
  {
    hide Run, Uninterrupted, Inv, PromiseKept;
    var next := Step(s, a, maxAttempts);
    InterruptionShows(s, a, maxAttempts);
    FreshAttempt(s);
    InterruptedJob(s, a, maxAttempts);
    AskedAgain(next, maxAttempts);
    var again := Run(next, AGAIN, maxAttempts);
    ToGate(again, maxAttempts);
    FreshCall(Run(again, TO_GATE, maxAttempts), credits, maxAttempts);
    RunOn(again, TO_GATE, ToEnd(credits), maxAttempts);
    RunOn(next, AGAIN, TO_GATE + ToEnd(credits), maxAttempts);
    CalmIsUninterrupted(next, AGAIN + (TO_GATE + ToEnd(credits)), maxAttempts);
  }

  lemma InterruptedJob(s: State, a: Action, maxAttempts: nat)
    requires s.job.Held? && IsInterrupt(a)
    ensures var next := Step(s, a, maxAttempts);
            && next == s.(job := if a.Die? then Orphaned(s.job.attempts) else Held(s.job.attempts, Raised))
  {}

  lemma FreshAttempt(s: State)
    requires Inv(s)
    ensures s.attempt + 1 !in s.anchors && s.attempt + 1 !in s.debits
  {}

  /** The way back to the queue without giving the job up. */
  function Back(s: State, a: Action, maxAttempts: nat): Action
    requires s.job.Held?
  {
    if a.Raise? && s.job.attempts < maxAttempts then RetryOrFail else Die
  }

  lemma BackInQueue(s: State, a: Action, maxAttempts: nat)
    requires s.job.Held? && IsInterrupt(a)
    ensures var back := Run(Step(s, a, maxAttempts), [Back(s, a, maxAttempts)], maxAttempts);
            && (back.job.Waiting? || back.job.Orphaned?) && back == s.(job := back.job)
  {
    hide Run;
    var next := Step(s, a, maxAttempts);
    NoActions(next, maxAttempts);
    RunNext(next, [], Back(s, a, maxAttempts), maxAttempts);
    assert [] + [Back(s, a, maxAttempts)] == [Back(s, a, maxAttempts)];
  }

  /** A stored result asked for again: kept, or too large to have been kept. */
  lemma StoredCall(s: State, truncated: bool, maxAttempts: nat)
    requires s.job.Held? && s.job.at == Asking(s.attempt) && s.phase.Running? && HasAnchor(s, s.attempt, Completed)
    ensures var end := Run(s, [RunGate(Allowed(truncated)), Finish], maxAttempts);
            && end.debits == s.debits
            && (if truncated then end.phase.Failed? else end.phase.Succeeded? && end.charged == Some(0))
  {
    hide Run;
    var gate := RunGate(Allowed(truncated));
    NoActions(s, maxAttempts);
    assert [] + [gate] == [gate] && [gate] + [Finish] == [gate, Finish];
    RunNext(s, [], gate, maxAttempts);
    RunNext(s, [gate], Finish, maxAttempts);
  }

  /**
   * REPORTED AS FREE, OR FAILED. When the settled attempt is the one the user waits for, the job comes
   * back without any act of the user, and the stored result is replayed: the message succeeds and
   * reports zero, or fails if the result was too large to keep. Its debit stays.
   */
  lemma InterruptedIsReplayed(s: State, a: Action, truncated: bool, maxAttempts: nat)
    requires Inv(s) && Interrupts(s, a) && IsCurrent(s)
    ensures var more := [Back(s, a, maxAttempts)] + (TO_GATE + [RunGate(Allowed(truncated)), Finish]);
            var next := Step(s, a, maxAttempts);
            var end := Run(next, more, maxAttempts);
            && Uninterrupted(next, more, maxAttempts)
            && end.debits == map[s.attempt := s.job.at.charged.value]
            && (if truncated then end.phase.Failed? else end.phase.Succeeded? && end.charged == Some(0))
  {
    hide Run, Uninterrupted, Inv, PromiseKept, WellFormed;
    var next := Step(s, a, maxAttempts);
    InterruptionShows(s, a, maxAttempts);
    assert WellFormed(s) by { ShapeOf(s); }
    SettledFits(s);
    BackInQueue(s, a, maxAttempts);
    var back := Run(next, [Back(s, a, maxAttempts)], maxAttempts);
    ToGate(back, maxAttempts);
    var rest := [RunGate(Allowed(truncated)), Finish];
    StoredCall(Run(back, TO_GATE, maxAttempts), truncated, maxAttempts);
    RunOn(back, TO_GATE, rest, maxAttempts);
    RunOn(next, [Back(s, a, maxAttempts)], TO_GATE + rest, maxAttempts);
    UninterruptedFirst(next, Back(s, a, maxAttempts), TO_GATE + rest, maxAttempts);
  }

  lemma ShapeOf(s: State)
    requires Inv(s)
    ensures WellFormed(s)
  {}

  lemma SettledFits(s: State)
    requires WellFormed(s) && IsCurrent(s)
    ensures !s.free && HasAnchor(s, s.attempt, Completed)
  {}

  lemma {:induction false} UninterruptedFirst(s: State, a: Action, more: seq<Action>, maxAttempts: nat)
    requires !IsPaid(s) && forall x :: x in more ==> !IsInterrupt(x)
    ensures Uninterrupted(s, [a] + more, maxAttempts)
  {
    hide Run;
    if |more| == 0 {
      assert [a] + more == [a] && [a][..0] == [];
      NoActions(s, maxAttempts);
    } else {
      UninterruptedFirst(s, a, more[..|more| - 1], maxAttempts);
      assert ([a] + more)[..|more|] == [a] + more[..|more| - 1];
    }
  }

  /** FAILED AND DEBITED. An exception on the last attempt gives the job up, and the message is marked failed. */
  lemma InterruptedIsFailed(s: State, maxAttempts: nat)
    requires Inv(s) && Interrupts(s, Raise) && s.job.attempts >= maxAttempts && IsUnderWay(s.phase)
    ensures var end := Run(Step(s, Raise, maxAttempts), [RetryOrFail, FailEntity], maxAttempts);
            end.phase.Failed? && end.debits == map[s.job.at.generation.value := s.job.at.charged.value]
  {
    hide Run, Inv, PromiseKept;
    InterruptionShows(s, Raise, maxAttempts);
    var next := Step(s, Raise, maxAttempts);
    NoActions(next, maxAttempts);
    assert [] + [RetryOrFail] == [RetryOrFail] && [RetryOrFail] + [FailEntity] == [RetryOrFail, FailEntity];
    RunNext(next, [], RetryOrFail, maxAttempts);
    RunNext(next, [RetryOrFail], FailEntity, maxAttempts);
  }

  // ------------------------------------------------------------------ replays

  /** A worker is about to ask for a generation that was delivered before. */
  predicate Replays(s: State) { s.job.Held? && s.job.at.Asking? && HasAnchor(s, s.job.at.attempt, Completed) }

  /** Nobody will ask for this attempt again. */
  predicate IsGone(s: State, n: nat) {
    && n <= s.attempt && (n == s.attempt ==> !IsUnderWay(s.phase))
    && (s.job.Held? ==> s.job.at != Asking(n) && s.job.at != Refused(n) && !(s.job.at.Reading? && s.job.at.attempt == n))
  }

  predicate IsSettledFor(s: State, n: nat) { IsSettled(s) && s.job.at.generation.value == n }

  /** What was delivered is being settled, or will not be asked for again. */
  ghost predicate DeliveredAreDone(s: State) {
    WellFormed(s) &&
    (!s.phase.Succeeded? ==> forall n :: HasAnchor(s, n, Completed) ==> IsSettledFor(s, n) || IsGone(s, n))
  }

  predicate CutsOff(s: State, a: Action) { IsInterrupt(a) && IsCurrent(s) && !s.phase.Succeeded? }

  ghost predicate NeverCutOff(s: State, actions: seq<Action>, maxAttempts: nat) {
    |actions| > 0 ==>
      && NeverCutOff(s, actions[..|actions| - 1], maxAttempts)
      && !CutsOff(Run(s, actions[..|actions| - 1], maxAttempts), actions[|actions| - 1])
  }

  lemma GoneStays(s: State, a: Action, n: nat, maxAttempts: nat)
    requires WellFormed(s) && IsGone(s, n) && HasAnchor(s, n, Completed)
    ensures IsGone(Step(s, a, maxAttempts), n)
  {}

  /** One step delivers at most the attempt that it settles. */
  lemma DeliveredBySettling(s: State, a: Action, n: nat, maxAttempts: nat)
    requires HasAnchor(Step(s, a, maxAttempts), n, Completed)
    ensures HasAnchor(s, n, Completed) || IsSettledFor(Step(s, a, maxAttempts), n)
  {}

  lemma SettledStaysOrIsGone(s: State, a: Action, n: nat, maxAttempts: nat)
    requires WellFormed(s) && IsSettledFor(s, n) && !CutsOff(s, a) && !s.phase.Succeeded?
    ensures var next := Step(s, a, maxAttempts);
            next.phase.Succeeded? || IsSettledFor(next, n) || IsGone(next, n)
  {}

  lemma StepIsDone(s: State, a: Action, maxAttempts: nat)
    requires DeliveredAreDone(s) && !CutsOff(s, a)
    ensures DeliveredAreDone(Step(s, a, maxAttempts))
  {
    hide WellFormed, Step, IsGone, IsSettledFor, CutsOff, HasAnchor;
    var next := Step(s, a, maxAttempts);
    StepIsWellFormed(s, a, maxAttempts);
    if s.phase.Succeeded? {
      SucceededIsQuiet(s);
      QuietStep(s, a, maxAttempts);
    } else if !next.phase.Succeeded? {
      forall n | HasAnchor(next, n, Completed) ensures IsSettledFor(next, n) || IsGone(next, n) {
        DeliveredBySettling(s, a, n, maxAttempts);
        if HasAnchor(s, n, Completed) {
          if IsGone(s, n) { GoneStays(s, a, n, maxAttempts); } else { SettledStaysOrIsGone(s, a, n, maxAttempts); }
        }
      }
    }
  }

  lemma {:induction false} RunIsDone(s: State, actions: seq<Action>, maxAttempts: nat)
    requires DeliveredAreDone(s) && NeverCutOff(s, actions, maxAttempts)
    ensures DeliveredAreDone(Run(s, actions, maxAttempts))
  {
    hide DeliveredAreDone, Step, CutsOff;
    if |actions| > 0 {
      RunIsDone(s, actions[..|actions| - 1], maxAttempts);
      StepIsDone(Run(s, actions[..|actions| - 1], maxAttempts), actions[|actions| - 1], maxAttempts);
    }
  }

  lemma DoneIsNotReplayed(s: State)
    requires DeliveredAreDone(s)
    ensures !Replays(s)
  {}

  /** Without such a cut no stored result is ever replayed. */
  lemma NeverReplayed(denied: bool, free: bool, actions: seq<Action>, maxAttempts: nat)
    requires NeverCutOff(Ask(denied, free), actions, maxAttempts)
    ensures !Replays(Life(denied, free, actions, maxAttempts))
  {
    hide Run, NeverCutOff, DeliveredAreDone, Replays;
    assert DeliveredAreDone(Ask(denied, free)) by { AskedIsDone(denied, free); }
    RunIsDone(Ask(denied, free), actions, maxAttempts);
    DoneIsNotReplayed(Life(denied, free, actions, maxAttempts));
  }

  lemma AskedIsDone(denied: bool, free: bool)
    ensures DeliveredAreDone(Ask(denied, free))
  {}

  /**
   * EXACTLY NOT CUT OFF. A stored result can come to be replayed, without a further cut, if and only
   * if the step interrupts the settled attempt that the user waits for.
   */
  lemma ReplayedExactly(s: State, a: Action, maxAttempts: nat)
    requires DeliveredAreDone(s)
    ensures (exists more :: NeverCutOff(Step(s, a, maxAttempts), more, maxAttempts) &&
                              Replays(Run(Step(s, a, maxAttempts), more, maxAttempts))) <==>
            CutsOff(s, a)
  {
    hide Run, NeverCutOff, DeliveredAreDone, Replays, CutsOff, Step;
    var next := Step(s, a, maxAttempts);
    if CutsOff(s, a) {
      CutIsReplayed(s, a, maxAttempts);
      assert Replays(Run(next, [Back(s, a, maxAttempts)] + TO_GATE, maxAttempts));
    } else {
      StepIsDone(s, a, maxAttempts);
      forall more | NeverCutOff(next, more, maxAttempts) ensures !Replays(Run(next, more, maxAttempts)) {
        RunIsDone(next, more, maxAttempts);
        DoneIsNotReplayed(Run(next, more, maxAttempts));
      }
    }
  }

  lemma CutIsReplayed(s: State, a: Action, maxAttempts: nat)
    requires DeliveredAreDone(s) && CutsOff(s, a)
    ensures s.job.Held?
    ensures var next := Step(s, a, maxAttempts);
            var more := [Back(s, a, maxAttempts)] + TO_GATE;
            NeverCutOff(next, more, maxAttempts) && Replays(Run(next, more, maxAttempts))
  {
    hide Run, NeverCutOff, WellFormed;
    var next := Step(s, a, maxAttempts);
    SettledFits(s);
    BackInQueue(s, a, maxAttempts);
    ToGate(Run(next, [Back(s, a, maxAttempts)], maxAttempts), maxAttempts);
    RunOn(next, [Back(s, a, maxAttempts)], TO_GATE, maxAttempts);
    NeverCutOffFirst(next, Back(s, a, maxAttempts), TO_GATE, maxAttempts);
  }

  lemma {:induction false} NeverCutOffFirst(s: State, a: Action, more: seq<Action>, maxAttempts: nat)
    requires !IsSettled(s) && forall x :: x in more ==> !IsInterrupt(x)
    ensures NeverCutOff(s, [a] + more, maxAttempts)
  {
    hide Run;
    if |more| == 0 {
      assert [a] + more == [a] && [a][..0] == [];
      assert NeverCutOff(s, [], maxAttempts);
      NoActions(s, maxAttempts);
    } else {
      NeverCutOffFirst(s, a, more[..|more| - 1], maxAttempts);
      assert ([a] + more)[..|more|] == [a] + more[..|more| - 1];
    }
  }

  // ------------------------------------------------------------------ failures and cancellations

  /** What the worker does with a decision: it lets its exception reach the queue, or reports. */
  function OwnStep(s: State): Action
    requires s.job.Held?
  {
    if s.job.at.Raised? then RetryOrFail else Finish
  }

  /**
   * WHICH FAILURES ARE RETRIED. A message under way whose provider failed is under way still, with its
   * job in the queue again, if and only if the failure may be retried and attempts are left; it is failed
   * otherwise. A cancellation, by the user or by the provider's code, comes first.
   */
  lemma FailurePolicy(s: State, canceledCode: bool, retryable: bool, maxAttempts: nat)
    requires s.job.Held? && s.job.at.Failing?
    ensures Step(s, DecideFailure(canceledCode, retryable), maxAttempts).job.Held?
    ensures var decided := Step(s, DecideFailure(canceledCode, retryable), maxAttempts);
            var after := Run(s, [DecideFailure(canceledCode, retryable), OwnStep(decided)], maxAttempts);
            && after.attempt == s.attempt && after.anchors == s.anchors && after.debits == s.debits
            && (s.phase.Canceled? || canceledCode ==> after.phase.Canceled? && after.job == Held(s.job.attempts, Ending))
            && (IsUnderWay(s.phase) && !canceledCode ==>
                  && (retryable && s.job.attempts < maxAttempts <==>
                        after.phase == s.phase && after.job == Waiting(s.job.attempts))
                  && (!(retryable && s.job.attempts < maxAttempts) ==>
                        after.phase.Failed? && after.job == Held(s.job.attempts, Ending)))
  {
    hide Run, Step;
    var a := DecideFailure(canceledCode, retryable);
    var decided := Step(s, a, maxAttempts);
    Decided(s, canceledCode, retryable, maxAttempts);
    OwnStepTaken(decided, maxAttempts);
    var own := OwnStep(decided);
    NoActions(s, maxAttempts);
    assert [] + [a] == [a] && [a] + [own] == [a, own];
    RunNext(s, [], a, maxAttempts);
    RunNext(s, [a], own, maxAttempts);
  }

  lemma Decided(s: State, canceledCode: bool, retryable: bool, maxAttempts: nat)
    requires s.job.Held? && s.job.at.Failing?
    ensures Step(s, DecideFailure(canceledCode, retryable), maxAttempts) ==
            s.(job := Held(s.job.attempts,
                           if s.phase.Canceled? || canceledCode then Closing(Canceled, None, None)
                           else if retryable && s.job.attempts < maxAttempts then Raised
                           else Closing(Failed, None, None)))
  {}

  lemma OwnStepTaken(s: State, maxAttempts: nat)
    requires s.job.Held? && (s.job.at.Raised? || s.job.at.Closing?)
    ensures Step(s, OwnStep(s), maxAttempts) ==
            if s.job.at.Raised? then GiveUpOrRetry(s, maxAttempts)
            else At(Close(s, s.job.at.phase, s.job.at.charged), Ending)
  {}

  /** A step that neither retries the message nor finds it at its success leaves a cancellation as it is. */
  lemma CancellationStays(s: State, a: Action, maxAttempts: nat)
    requires s.phase.Canceled? && !a.Retry?
    ensures var next := Step(s, a, maxAttempts);
            next.phase.Canceled? || (next.phase.Succeeded? && a.Finish? && s.job.Held? && s.job.at.Closing?
                                     && s.job.at.phase.Succeeded?)
  {}

  /** CANCELED STAYS CANCELED. Only a success, or a retry by the user, ends a cancellation. */
  lemma {:induction false} CanceledStaysCanceled(s: State, actions: seq<Action>, maxAttempts: nat)
    requires WellFormed(s) && s.phase.Canceled? && forall a :: a in actions ==> !a.Retry?
    ensures var after := Run(s, actions, maxAttempts); after.phase.Canceled? || after.phase.Succeeded?
  {
    if |actions| > 0 {
      hide Step, WellFormed;
      var front := actions[..|actions| - 1];
      CanceledStaysCanceled(s, front, maxAttempts);
      RunIsWellFormed(s, front, maxAttempts);
      var before := Run(s, front, maxAttempts);
      if before.phase.Canceled? {
        CancellationStays(before, actions[|actions| - 1], maxAttempts);
      } else {
        SucceededIsQuiet(before);
        QuietStep(before, actions[|actions| - 1], maxAttempts);
      }
    }
  }

  // ------------------------------------------------------------------ the row and its writers

  /** The message row and its job; what the ledger and `generations` hold is ghost here. */
  class Message {
    var phase: Phase
    var attempt: nat
    var free: bool
    var charged: Option<int>
    var job: JobState
    var failing: nat
    ghost var anchors: map<nat, Anchor>
    ghost var debits: map<nat, int>

    ghost function Row(): State
      reads this
    {
      State(phase, attempt, free, charged, job, anchors, debits, failing)
    }

    /** `ChatService.ask` */
    constructor (denied: bool, demoFree: bool)
      ensures Row() == Ask(denied, demoFree)
    {
      phase, job := Queued, Waiting(0);
      attempt, free, charged, failing := 1, demoFree, None, 0;
      anchors, debits := map[], map[];
      new;
      if denied && !demoFree {
        phase, job := Blocked, NoJob;
      }
    }

    /** `enqueue`: `false` when a job is active already. */
    method Enqueue() returns (queued: bool)
      modifies this`job
      ensures queued == old(job).NoJob?
      ensures job == if old(job).NoJob? then Waiting(0) else old(job)
    {
      queued := job.NoJob?;
      if queued { job := Waiting(0); }
    }

    /** `ChatService.cancel` */
    method CancelRequest() returns (accepted: bool)
      modifies this
      ensures accepted == CancelMessage(old(Row())).Some?
      ensures Row() == OrElse(CancelMessage(old(Row())), old(Row()))
    {
      if !phase.Queued? && !phase.Running? {
        return false;
      }
      phase := Canceled;
      if job.Waiting? { job := NoJob; }
      accepted := true;
    }

    /** `ChatService.retry`; the answer of `enqueue` is ignored. */
    method RetryRequest(denied: bool, demoFree: bool) returns (accepted: bool)
      modifies this
      ensures accepted == RetryMessage(old(Row()), denied, demoFree).Some?
      ensures Row() == OrElse(RetryMessage(old(Row()), denied, demoFree), old(Row()))
    {
      if !phase.Failed? && !phase.Blocked? && !phase.Canceled? {
        return false;
      }
      phase := if denied && !demoFree then Blocked else Queued;
      free, charged, attempt := demoFree, None, attempt + 1;
      if phase.Queued? {
        var _ := Enqueue();
      }
      accepted := true;
    }

    /** The beginning of `run_answer`. */
    method StartHandler(topicGone: bool)
      requires job.Held?
      modifies this
      ensures Row() == StartRun(old(Row()), topicGone)
    {
      if (!phase.Queued? && !phase.Running?) || topicGone {
        job := Held(job.attempts, Ending);
        return;
      }
      phase := Running;
      job := Held(job.attempts, Reading(attempt, free));
    }

    /** `_finish` */
    method FinishEntity(status: Phase, usage: Option<int>)
      modifies this`phase, this`charged
      ensures Row() == Close(old(Row()), status, usage)
    {
      if phase.Canceled? && !status.Succeeded? {
        return;
      }
      phase := status;
      if usage.Some? { charged := usage; }
    }

    /** `_on_failure` */
    method OnFailure(canceledCode: bool, retryable: bool, maxAttempts: nat)
      requires job.Held?
      modifies this`job
      ensures Row() == Decide(old(Row()), canceledCode, retryable, maxAttempts)
    {
      var isLastAttempt := job.attempts >= maxAttempts;
      if phase.Canceled? || canceledCode {
        job := Held(job.attempts, Closing(Canceled, None, None));
      } else if retryable && !isLastAttempt {
        job := Held(job.attempts, Raised);
      } else {
        job := Held(job.attempts, Closing(Failed, None, None));
      }
    }

    /** `_retry_or_fail` and, later, `_fail_entity` */
    method RetryOrFailJob(maxAttempts: nat)
      requires job.Held?
      modifies this`job, this`failing
      ensures Row() == GiveUpOrRetry(old(Row()), maxAttempts)
    {
      if job.attempts < maxAttempts {
        job := Waiting(job.attempts);
        return;
      }
      job, failing := NoJob, failing + 1;
    }

    method FailEntityRow()
      requires failing > 0
      modifies this`phase, this`failing
      ensures Row() == FailMessage(old(Row()))
    {
      if phase.Queued? || phase.Running? { phase := Failed; }
      failing := failing - 1;
    }
  }
}
