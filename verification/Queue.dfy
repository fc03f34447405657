/** The leased job queue and the worker's policy over it. */
module Queue {
  import opened Strings

  datatype JobStatus = Queued | Running | Done | Failed

  /** A row of `domain_jobs`; its position is its identity. Times are seconds. */
  datatype Job = Job(kind: string, ref: nat, status: JobStatus, attempts: nat, runAfter: int, lockedUntil: Option<int>)

  /** What a worker ends a job with: it went through, or it met an error. */
  datatype Report = Succeeded | Error

  // ------------------------------------------------------------------ the statements

  predicate IsActive(j: Job) { j.status.Queued? || j.status.Running? }

  predicate SameTarget(a: Job, b: Job) { a.kind == b.kind && a.ref == b.ref }

  predicate HasActive(jobs: seq<Job>, kind: string, ref: nat) {
    exists i :: 0 <= i < |jobs| && IsActive(jobs[i]) && jobs[i].kind == kind && jobs[i].ref == ref
  }

  /** `enqueue`, under the partial unique index. */
  function Enqueue(jobs: seq<Job>, kind: string, ref: nat, runAfter: int): (seq<Job>, bool) {
    if HasActive(jobs, kind, ref) then (jobs, false)
    else (jobs + [Job(kind, ref, Queued, 0, runAfter, None)], true)
  }

  predicate IsExpired(j: Job, now: int) { j.lockedUntil.Some? && j.lockedUntil.value < now }

  predicate IsClaimable(j: Job, now: int) {
    (j.status.Queued? && j.runAfter <= now) || (j.status.Running? && IsExpired(j, now))
  }

  function Claimed(j: Job, until: int): Job {
    j.(status := Running, attempts := j.attempts + 1, lockedUntil := Some(until))
  }

  function Finished(j: Job): Job { j.(status := Done, lockedUntil := None) }

  function Requeued(j: Job, runAfter: int): Job { j.(status := Queued, lockedUntil := None, runAfter := runAfter) }

  function GivenUp(j: Job): Job { j.(status := Failed, lockedUntil := None) }

  function Pow2(n: nat): (p: nat)
    ensures p >= 1
  {
    if n == 0 then 1 else 2 * Pow2(n - 1)
  }

  /** `backoff_seconds`. */
  function Backoff(attempts: nat): int {
    var wait := 30 * Pow2(if attempts >= 1 then attempts - 1 else 0);
    if wait <= 900 then wait else 900
  }

  /** The first retry waits half a minute; each further one twice as long, up to a quarter of an hour. */
  lemma BackoffDoubles(attempts: nat)
    ensures Backoff(0) == Backoff(1) == 30
    ensures attempts >= 1 ==> Backoff(attempts + 1) == if 2 * Backoff(attempts) <= 900 then 2 * Backoff(attempts) else 900
    ensures 30 <= Backoff(attempts) <= 900
  {
    assert Pow2(0) == 1;
    if attempts >= 1 { assert Pow2(attempts) == 2 * Pow2(attempts - 1); }
  }

  /** `cancel_queued`: a job not started is dropped. */
  function Cancelled(j: Job, kind: string, ref: nat): Job {
    if j.status.Queued? && j.kind == kind && j.ref == ref then j.(status := Done) else j
  }

  function CancelAll(jobs: seq<Job>, kind: string, ref: nat): (after: seq<Job>)
    ensures |after| == |jobs|
    ensures forall i :: 0 <= i < |jobs| ==> after[i] == Cancelled(jobs[i], kind, ref)
  {
    if |jobs| == 0 then []
    else CancelAll(jobs[..|jobs| - 1], kind, ref) + [Cancelled(jobs[|jobs| - 1], kind, ref)]
  }

  predicate Waits(j: Job, kind: string, ref: nat) { j.status.Queued? && j.kind == kind && j.ref == ref }

  /** A cancel makes room: nothing waits for the target any more, what has started goes on, and nothing else is
      touched; so a new job is queued exactly when none is running. */
  lemma CancelMakesRoom(jobs: seq<Job>, kind: string, ref: nat, runAfter: int)
    ensures var after := CancelAll(jobs, kind, ref);
            && (forall i :: 0 <= i < |jobs| ==> !Waits(after[i], kind, ref))
            && (forall i :: 0 <= i < |jobs| && !Waits(jobs[i], kind, ref) ==> after[i] == jobs[i])
            && (forall i :: 0 <= i < |jobs| && Waits(jobs[i], kind, ref) ==> !IsActive(after[i]))
            && (Enqueue(after, kind, ref, runAfter).1 <==>
                  forall i :: 0 <= i < |jobs| ==> !(jobs[i].status.Running? && jobs[i].kind == kind && jobs[i].ref == ref))
  {
    hide CancelAll;
    var after := CancelAll(jobs, kind, ref);
    forall i | 0 <= i < |jobs| && jobs[i].status.Running? && jobs[i].kind == kind && jobs[i].ref == ref
      ensures after[i] == jobs[i]
    {}
  }

  // ------------------------------------------------------------------ the system

  /** A worker at work on a claimed job. */
  datatype Hold = Hold(job: nat, attempts: nat, until: int)

  /** `lost` counts the workers that died at work. */
  datatype World = World(now: int, jobs: seq<Job>, holds: seq<Hold>, lost: nat)

  datatype Settings = Settings(lease: nat, maxAttempts: nat)

  datatype Action =
    | Add(kind: string, ref: nat, delay: nat)
    | Cancel(kind: string, ref: nat)
    | Claim(job: nat)
    | EndWith(hold: nat, report: Report)
    | Die(hold: nat)
    | Pass(seconds: nat)

  predicate Enabled(w: World, a: Action) {
    match a
    case Claim(job) => job < |w.jobs| && IsClaimable(w.jobs[job], w.now)
    case EndWith(hold, _) => hold < |w.holds| && w.holds[hold].job < |w.jobs|
    case Die(hold) => hold < |w.holds|
    case _ => true
  }

  /** `_process` and `_retry_or_fail`: the attempts are those of the claim. */
  function AfterReport(j: Job, h: Hold, report: Report, now: int, s: Settings): Job {
    if report.Succeeded? then Finished(j)
    else if h.attempts < s.maxAttempts then Requeued(j, now + Backoff(h.attempts))
    else GivenUp(j)
  }

  function Without(holds: seq<Hold>, k: nat): seq<Hold>
    requires k < |holds|
  {
    holds[..k] + holds[k + 1..]
  }

  function Apply(w: World, a: Action, s: Settings): World
    requires Enabled(w, a)
  {
    match a
    case Add(kind, ref, delay) => w.(jobs := Enqueue(w.jobs, kind, ref, w.now + delay).0)
    case Cancel(kind, ref) => w.(jobs := CancelAll(w.jobs, kind, ref))
    case Claim(job) =>
      var j := Claimed(w.jobs[job], w.now + s.lease);
      w.(jobs := w.jobs[job := j], holds := w.holds + [Hold(job, j.attempts, w.now + s.lease)])
    case EndWith(hold, report) =>
      var h := w.holds[hold];
      w.(jobs := w.jobs[h.job := AfterReport(w.jobs[h.job], h, report, w.now, s)], holds := Without(w.holds, hold))
    case Die(hold) => w.(holds := Without(w.holds, hold), lost := w.lost + 1)
    case Pass(seconds) => w.(now := w.now + seconds)
  }

  /** Workers report, or die, before their leases run out. */
  predicate LeasesHold(w: World, a: Action) {
    a.Pass? ==> forall k :: 0 <= k < |w.holds| ==> w.now + a.seconds <= w.holds[k].until
  }

  predicate Happens(w: World, a: Action) { Enabled(w, a) && LeasesHold(w, a) }

  function Run(w: World, actions: seq<Action>, s: Settings): World {
    if |actions| == 0 then w
    else
      var before := Run(w, actions[..|actions| - 1], s);
      var a := actions[|actions| - 1];
      if Happens(before, a) then Apply(before, a, s) else before
  }

  // ------------------------------------------------------------------ what every state keeps

  ghost predicate OneActiveEach(jobs: seq<Job>) {
    forall i, j :: 0 <= i < j < |jobs| && IsActive(jobs[i]) && IsActive(jobs[j]) ==> !SameTarget(jobs[i], jobs[j])
  }

  predicate Fits(w: World, h: Hold) {
    && h.job < |w.jobs| && w.jobs[h.job].status.Running?
    && w.jobs[h.job].lockedUntil == Some(h.until) && h.until >= w.now
    && w.jobs[h.job].attempts == h.attempts
  }

  ghost predicate HoldsFit(w: World) {
    forall k :: 0 <= k < |w.holds| ==> Fits(w, w.holds[k])
  }

  ghost predicate OneHolderEach(holds: seq<Hold>) {
    forall j, k :: 0 <= j < k < |holds| ==> holds[j].job != holds[k].job
  }

  predicate IsHeld(holds: seq<Hold>, job: nat) {
    exists k :: 0 <= k < |holds| && holds[k].job == job
  }

  function Limit(w: World, s: Settings): nat { (if s.maxAttempts >= 1 then s.maxAttempts else 1) + w.lost }

  /** A job can still be claimed only while it has attempts left; a lost worker costs one more. */
  ghost predicate AttemptsLeft(w: World, s: Settings) {
    forall i :: 0 <= i < |w.jobs| ==>
      && w.jobs[i].attempts <= Limit(w, s)
      && (IsActive(w.jobs[i]) && !IsHeld(w.holds, i) ==> w.jobs[i].attempts < Limit(w, s))
  }

  ghost predicate Inv(w: World, s: Settings) {
    OneActiveEach(w.jobs) && HoldsFit(w) && OneHolderEach(w.holds) && AttemptsLeft(w, s)
  }

  lemma WithoutIndex(holds: seq<Hold>, k: nat)
    requires k < |holds|
    ensures |Without(holds, k)| == |holds| - 1
    ensures forall i :: 0 <= i < |holds| - 1 ==> Without(holds, k)[i] == holds[if i < k then i else i + 1]
  {}

  lemma WithoutHeld(holds: seq<Hold>, k: nat)
    requires k < |holds| && OneHolderEach(holds)
    ensures OneHolderEach(Without(holds, k))
    ensures forall job :: IsHeld(Without(holds, k), job) <==> IsHeld(holds, job) && job != holds[k].job
  {
    WithoutIndex(holds, k);
    var after := Without(holds, k);
    forall job ensures IsHeld(after, job) <==> IsHeld(holds, job) && job != holds[k].job {
      if IsHeld(after, job) {
        var i :| 0 <= i < |after| && after[i].job == job;
        assert holds[if i < k then i else i + 1].job == job;
      }
      if IsHeld(holds, job) && job != holds[k].job {
        var i :| 0 <= i < |holds| && holds[i].job == job;
        assert after[if i < k then i else i - 1].job == job;
      }
    }
  }

  lemma AddKeeps(w: World, kind: string, ref: nat, runAfter: int, s: Settings)
    requires Inv(w, s)
    ensures Inv(w.(jobs := Enqueue(w.jobs, kind, ref, runAfter).0), s)
  {
    hide OneHolderEach, IsHeld;
    var jobs := Enqueue(w.jobs, kind, ref, runAfter).0;
    if !HasActive(w.jobs, kind, ref) {
      forall i, j | 0 <= i < j < |jobs| && IsActive(jobs[i]) && IsActive(jobs[j]) ensures !SameTarget(jobs[i], jobs[j]) {
        if j == |w.jobs| { assert jobs[i] == w.jobs[i]; }
      }
      forall k | 0 <= k < |w.holds| ensures Fits(w.(jobs := jobs), w.holds[k]) {
        assert Fits(w, w.holds[k]);
      }
    }
  }

  lemma CancelKeeps(w: World, kind: string, ref: nat, s: Settings)
    requires Inv(w, s)
    ensures Inv(w.(jobs := CancelAll(w.jobs, kind, ref)), s)
  {
    hide OneHolderEach, IsHeld;
    forall k | 0 <= k < |w.holds| ensures Fits(w.(jobs := CancelAll(w.jobs, kind, ref)), w.holds[k]) {
      assert Fits(w, w.holds[k]);
    }
  }

  lemma ClaimKeeps(w: World, job: nat, s: Settings)
    requires Inv(w, s) && job < |w.jobs| && IsClaimable(w.jobs[job], w.now)
    ensures Inv(Apply(w, Claim(job), s), s)
    ensures !IsHeld(w.holds, job)
  {
    var after := Apply(w, Claim(job), s);
    forall k | 0 <= k < |w.holds| ensures w.holds[k].job != job && Fits(after, w.holds[k]) {
      assert Fits(w, w.holds[k]);
    }
    forall i | IsHeld(w.holds, i) ensures IsHeld(after.holds, i) {
      var k :| 0 <= k < |w.holds| && w.holds[k].job == i;
      assert after.holds[k] == w.holds[k];
    }
    assert after.holds[|w.holds|].job == job;
  }

  lemma EndKeeps(w: World, hold: nat, report: Report, s: Settings)
    requires Inv(w, s) && hold < |w.holds|
    ensures Enabled(w, EndWith(hold, report))
    ensures Inv(Apply(w, EndWith(hold, report), s), s)
  {
    hide IsHeld, Without;
    var h := w.holds[hold];
    assert Fits(w, h);
    var after := Apply(w, EndWith(hold, report), s);
    WithoutIndex(w.holds, hold);
    WithoutHeld(w.holds, hold);
    forall k | 0 <= k < |after.holds| ensures Fits(after, after.holds[k]) {
      var was := if k < hold then k else k + 1;
      assert Fits(w, w.holds[was]);
      assert w.holds[was].job != h.job;
    }
  }

  lemma DieKeeps(w: World, hold: nat, s: Settings)
    requires Inv(w, s) && hold < |w.holds|
    ensures Inv(Apply(w, Die(hold), s), s)
  {
    hide IsHeld, Without, OneHolderEach;
    var after := Apply(w, Die(hold), s);
    WithoutIndex(w.holds, hold);
    WithoutHeld(w.holds, hold);
    forall k | 0 <= k < |after.holds| ensures Fits(after, after.holds[k]) {
      assert Fits(w, w.holds[if k < hold then k else k + 1]);
    }
  }

  lemma PassKeeps(w: World, seconds: nat, s: Settings)
    requires Inv(w, s) && LeasesHold(w, Pass(seconds))
    ensures Inv(Apply(w, Pass(seconds), s), s)
  {
    hide OneHolderEach, IsHeld, OneActiveEach;
    var after := Apply(w, Pass(seconds), s);
    forall k | 0 <= k < |w.holds| ensures Fits(after, w.holds[k]) {
      assert Fits(w, w.holds[k]);
    }
  }

  lemma ApplyKeeps(w: World, a: Action, s: Settings)
    requires Inv(w, s) && Happens(w, a)
    ensures Inv(Apply(w, a, s), s)
  {
    hide Inv;
    match a
    case Add(kind, ref, delay) => AddKeeps(w, kind, ref, w.now + delay, s);
    case Cancel(kind, ref) => CancelKeeps(w, kind, ref, s);
    case Claim(job) => ClaimKeeps(w, job, s);
    case EndWith(hold, report) => EndKeeps(w, hold, report, s);
    case Die(hold) => DieKeeps(w, hold, s);
    case Pass(seconds) => PassKeeps(w, seconds, s);
  }

  lemma {:induction false} RunKeeps(w: World, actions: seq<Action>, s: Settings)
    requires Inv(w, s)
    ensures Inv(Run(w, actions, s), s)
  {
    hide Inv, Apply, Happens;
    if |actions| > 0 {
      RunKeeps(w, actions[..|actions| - 1], s);
      var before := Run(w, actions[..|actions| - 1], s);
      if Happens(before, actions[|actions| - 1]) { ApplyKeeps(before, actions[|actions| - 1], s); }
    }
  }

  const EMPTY := World(0, [], [], 0)

  // ------------------------------------------------------------------ safety

  /** Never two workers on one job. */
  lemma OneWorkerPerJob(actions: seq<Action>, s: Settings, j: nat, k: nat)
    requires var holds := Run(EMPTY, actions, s).holds;
             j < |holds| && k < |holds| && holds[j].job == holds[k].job
    ensures j == k
  {
    hide Run, AttemptsLeft, HoldsFit, OneActiveEach;
    StartsRight(s);
    RunKeeps(EMPTY, actions, s);
    assert !(j < k) && !(k < j);
  }

  /** Never two active jobs for one target. */
  lemma OneJobPerTarget(actions: seq<Action>, s: Settings, j: nat, k: nat)
    requires var jobs := Run(EMPTY, actions, s).jobs;
             j < |jobs| && k < |jobs| && IsActive(jobs[j]) && IsActive(jobs[k]) && SameTarget(jobs[j], jobs[k])
    ensures j == k
  {
    hide Run, AttemptsLeft, HoldsFit, OneHolderEach;
    StartsRight(s);
    RunKeeps(EMPTY, actions, s);
    assert !(j < k) && !(k < j);
  }

  lemma StartsRight(s: Settings)
    ensures Inv(EMPTY, s)
  {}

  /** A job is claimed at most the configured number of times, and once more for a lost worker. */
  lemma ClaimsAreBounded(actions: seq<Action>, s: Settings, i: nat)
    requires i < |Run(EMPTY, actions, s).jobs|
    ensures Run(EMPTY, actions, s).jobs[i].attempts <=
              (if s.maxAttempts >= 1 then s.maxAttempts else 1) + Run(EMPTY, actions, s).lost
  {
    hide Run, OneActiveEach, OneHolderEach, HoldsFit;
    StartsRight(s);
    RunKeeps(EMPTY, actions, s);
  }

  /** A job that ended stays ended: no later action, by anyone, makes it active again. */
  lemma {:induction false} EndedStaysEnded(w: World, actions: seq<Action>, s: Settings, i: nat)
    requires Inv(w, s) && i < |w.jobs| && !IsActive(w.jobs[i])
    ensures i < |Run(w, actions, s).jobs| && Run(w, actions, s).jobs[i] == w.jobs[i]
  {
    if |actions| > 0 {
      hide Inv, Apply, Happens;
      EndedStaysEnded(w, actions[..|actions| - 1], s, i);
      RunKeeps(w, actions[..|actions| - 1], s);
      var before := Run(w, actions[..|actions| - 1], s);
      var a := actions[|actions| - 1];
      if Happens(before, a) { EndedStays(before, a, s, i); }
    }
  }

  lemma EndedStays(w: World, a: Action, s: Settings, i: nat)
    requires Inv(w, s) && Happens(w, a) && i < |w.jobs| && !IsActive(w.jobs[i])
    ensures i < |Apply(w, a, s).jobs| && Apply(w, a, s).jobs[i] == w.jobs[i]
  {
    hide OneActiveEach, OneHolderEach, AttemptsLeft, AfterReport, Without;
    if a.EndWith? { assert Fits(w, w.holds[a.hold]); }
  }

  // ------------------------------------------------------------------ termination

  /** What is left to do on a job with this many attempts in all. */
  function Weight(j: Job, limit: int): int {
    match j.status
    case Queued => 2 * (limit - j.attempts)
    case Running => 2 * (limit - j.attempts) + 1
    case _ => 0
  }

  function Total(jobs: seq<Job>, limit: int): int {
    if |jobs| == 0 then 0 else Total(jobs[..|jobs| - 1], limit) + Weight(jobs[|jobs| - 1], limit)
  }

  function Remaining(w: World, s: Settings): int { Total(w.jobs, Limit(w, s)) }

  lemma {:induction false} TotalUpdate(jobs: seq<Job>, i: nat, j: Job, limit: int)
    requires i < |jobs|
    ensures Total(jobs[i := j], limit) == Total(jobs, limit) - Weight(jobs[i], limit) + Weight(j, limit)
  {
    var after := jobs[i := j];
    var last := |jobs| - 1;
    if i < last {
      TotalUpdate(jobs[..last], i, j, limit);
      assert after[..last] == jobs[..last][i := j];
    } else {
      assert after[..last] == jobs[..last];
    }
  }

  lemma {:induction false} TotalPositive(jobs: seq<Job>, limit: int)
    requires forall i :: 0 <= i < |jobs| ==> jobs[i].attempts <= limit
    ensures Total(jobs, limit) >= 0
  {
    if |jobs| > 0 { TotalPositive(jobs[..|jobs| - 1], limit); }
  }

  lemma {:induction false} TotalCancelled(jobs: seq<Job>, kind: string, ref: nat, limit: int)
    requires forall i :: 0 <= i < |jobs| ==> jobs[i].attempts <= limit
    ensures Total(CancelAll(jobs, kind, ref), limit) <= Total(jobs, limit)
  {
    if |jobs| > 0 {
      var front := jobs[..|jobs| - 1];
      TotalCancelled(front, kind, ref, limit);
      var after := CancelAll(jobs, kind, ref);
      assert after[..|after| - 1] == CancelAll(front, kind, ref);
    }
  }

  predicate IsWork(a: Action) { a.Claim? || a.EndWith? }

  /** The claims and reports that happened in a run. */
  function WorkDone(w: World, actions: seq<Action>, s: Settings): nat {
    if |actions| == 0 then 0
    else
      var before := Run(w, actions[..|actions| - 1], s);
      var a := actions[|actions| - 1];
      WorkDone(w, actions[..|actions| - 1], s) + if Happens(before, a) && IsWork(a) then 1 else 0
  }

  lemma StepWorks(w: World, a: Action, s: Settings)
    requires Inv(w, s) && Happens(w, a) && !a.Add? && !a.Die?
    ensures Remaining(Apply(w, a, s), s) <= Remaining(w, s) - if IsWork(a) then 1 else 0
  {
    hide OneActiveEach, OneHolderEach, Total, Without;
    var limit := Limit(w, s);
    match a
    case Claim(job) => TotalUpdate(w.jobs, job, Claimed(w.jobs[job], w.now + s.lease), limit);
    case EndWith(hold, report) =>
      var h := w.holds[hold];
      assert Fits(w, h);
      TotalUpdate(w.jobs, h.job, AfterReport(w.jobs[h.job], h, report, w.now, s), limit);
    case Cancel(kind, ref) => TotalCancelled(w.jobs, kind, ref, limit);
    case Pass(seconds) =>
  }

  /** With nothing added and no worker lost, a queue takes a bounded number of claims and reports. */
  lemma {:induction false} QueueDrains(w: World, actions: seq<Action>, s: Settings)
    requires Inv(w, s) && forall a :: a in actions ==> !a.Add? && !a.Die?
    ensures WorkDone(w, actions, s) <= Remaining(w, s) - Remaining(Run(w, actions, s), s) <= Remaining(w, s)
  {
    hide Inv, Apply, Happens, Remaining, IsWork;
    if |actions| > 0 {
      QueueDrains(w, actions[..|actions| - 1], s);
      RunKeeps(w, actions[..|actions| - 1], s);
      var before := Run(w, actions[..|actions| - 1], s);
      var a := actions[|actions| - 1];
      if Happens(before, a) { StepWorks(before, a, s); }
    }
    RunKeeps(w, actions, s);
    RemainingPositive(Run(w, actions, s), s);
  }

  lemma RemainingPositive(w: World, s: Settings)
    requires Inv(w, s)
    ensures Remaining(w, s) >= 0
  {
    hide OneActiveEach, OneHolderEach, HoldsFit;
    TotalPositive(w.jobs, Limit(w, s));
  }

  // ------------------------------------------------------------------ locks and waiting

  predicate IsLockedRight(j: Job) { j.lockedUntil.Some? <==> j.status.Running? }

  /** A job is locked exactly while it runs. */
  lemma {:induction false} LockedExactly(w: World, actions: seq<Action>, s: Settings)
    requires forall k :: 0 <= k < |w.jobs| ==> IsLockedRight(w.jobs[k])
    ensures forall k :: 0 <= k < |Run(w, actions, s).jobs| ==> IsLockedRight(Run(w, actions, s).jobs[k])
  {
    if |actions| > 0 {
      LockedExactly(w, actions[..|actions| - 1], s);
    }
  }

  /** A failed job with attempts left may be claimed again exactly when its waiting time is over, and no sooner. */
  lemma RetriesWait(w: World, hold: nat, s: Settings, later: int)
    requires Enabled(w, EndWith(hold, Error))
    ensures var h := w.holds[hold];
            var after := Apply(w, EndWith(hold, Error), s).jobs[h.job];
            if h.attempts < s.maxAttempts
            then IsClaimable(after, later) <==> later >= w.now + Backoff(h.attempts)
            else !IsClaimable(after, later)
  {
    hide Backoff;
  }

  // ------------------------------------------------------------------ a lost lease

  predicate IsShared(w: World, job: nat) {
    exists j, k :: 0 <= j < k < |w.holds| && w.holds[j].job == job && w.holds[k].job == job
  }

  /** What a lease that has run out allows: another worker takes the job beside the first. */
  predicate CanBeShared(w: World, job: nat, s: Settings) {
    Enabled(w, Claim(job)) && IsShared(Apply(w, Claim(job), s), job)
  }

  lemma OutlivedIsShared(w: World, seconds: nat, hold: nat, s: Settings)
    requires Inv(w, s) && hold < |w.holds| && w.now + seconds > w.holds[hold].until
    ensures CanBeShared(Apply(w, Pass(seconds), s), w.holds[hold].job, s)
  {
    hide OneActiveEach, OneHolderEach, AttemptsLeft;
    var h := w.holds[hold];
    assert Fits(w, h);
    var after := Apply(Apply(w, Pass(seconds), s), Claim(h.job), s);
    assert after.holds[hold] == h && after.holds[|w.holds|].job == h.job;
  }

  lemma OneHolderIsNotShared(w: World, job: nat)
    requires OneHolderEach(w.holds)
    ensures !IsShared(w, job)
  {}

  /**
   * THE LEASES ARE THE FRONTIER. From a state in order, some job can come to have two workers if and
   * only if time passes beyond the lease of a worker that is still at work.
   */
  lemma SharedExactly(w: World, seconds: nat, s: Settings)
    requires Inv(w, s)
    ensures (exists job :: CanBeShared(Apply(w, Pass(seconds), s), job, s)) <==> !LeasesHold(w, Pass(seconds))
  {
    hide Inv, CanBeShared;
    if LeasesHold(w, Pass(seconds)) {
      PassKeeps(w, seconds, s);
      forall job ensures !CanBeShared(Apply(w, Pass(seconds), s), job, s) {
        NotShared(Apply(w, Pass(seconds), s), job, s);
      }
    } else {
      var hold :| 0 <= hold < |w.holds| && w.now + seconds > w.holds[hold].until;
      OutlivedIsShared(w, seconds, hold, s);
    }
  }

  lemma NotShared(w: World, job: nat, s: Settings)
    requires Inv(w, s)
    ensures !CanBeShared(w, job, s)
  {
    if Enabled(w, Claim(job)) {
      ClaimKeeps(w, job, s);
      hide IsShared;
      OneHolderIsNotShared(Apply(w, Claim(job), s), job);
    }
  }

  /** A worker has outlived the lease of the job it still works on. */
  predicate IsLate(w: World, hold: nat) {
    hold < |w.holds| && w.holds[hold].job < |w.jobs| && IsClaimable(w.jobs[w.holds[hold].job], w.now)
  }

  /** ... a second one takes the job and finishes it. */
  function FinishedByAnother(w: World, hold: nat, s: Settings): World
    requires IsLate(w, hold)
  {
    var claimed := Apply(w, Claim(w.holds[hold].job), s);
    Apply(claimed, EndWith(|w.holds|, Succeeded), s)
  }

  /** The late error of the first worker then brings a finished job back, or fails it on its last attempt. */
  lemma LateErrorRevives(w: World, hold: nat, s: Settings)
    requires IsLate(w, hold)
    ensures var job := w.holds[hold].job;
            var done := FinishedByAnother(w, hold, s);
            && done.jobs[job].status.Done? && Enabled(done, EndWith(hold, Error))
            && var after := Apply(done, EndWith(hold, Error), s).jobs[job];
               if w.holds[hold].attempts < s.maxAttempts then after.status.Queued? else after.status.Failed?
  {
    var claimed := Apply(w, Claim(w.holds[hold].job), s);
    WithoutIndex(claimed.holds, |w.holds|);
    assert FinishedByAnother(w, hold, s).holds[hold] == w.holds[hold];
  }

  const TEN := Settings(10, 3)
  const ONE_JOB := World(0, [Job("answer", 1, Queued, 0, 0, None)], [], 0)
  const OVERDUE := World(11, [Job("answer", 1, Running, 1, 0, Some(10))], [Hold(0, 1, 10)], 0)

  /**
   * Without the assumption the guarantees fail: a worker that outlives its lease shares its job
   * with a second one, and its late error brings a finished job back.
   */
  lemma LostLease()
    ensures Apply(EMPTY, Add("answer", 1, 0), TEN) == ONE_JOB
    ensures Enabled(ONE_JOB, Claim(0)) && Apply(Apply(ONE_JOB, Claim(0), TEN), Pass(11), TEN) == OVERDUE
    ensures !LeasesHold(Apply(ONE_JOB, Claim(0), TEN), Pass(11))
    ensures Enabled(OVERDUE, Claim(0)) && IsShared(Apply(OVERDUE, Claim(0), TEN), 0)
    ensures var shared := Apply(OVERDUE, Claim(0), TEN);
            && Enabled(shared, EndWith(1, Succeeded))
            && var done := Apply(shared, EndWith(1, Succeeded), TEN);
               && done.jobs[0].status.Done? && Enabled(done, EndWith(0, Error))
               && Apply(done, EndWith(0, Error), TEN).jobs[0].status.Queued?
  {
    assert [] + [Job("answer", 1, Queued, 0, 0, None)] == ONE_JOB.jobs;
    var taken := Apply(ONE_JOB, Claim(0), TEN);
    assert taken.jobs == OVERDUE.jobs && taken.holds == OVERDUE.holds;
    assert taken.holds[0].until == 10;
    var shared := Apply(OVERDUE, Claim(0), TEN);
    assert shared.holds[0].job == 0 && shared.holds[1].job == 0;
    assert Without(shared.holds, 1) == [shared.holds[0]];
  }

  // ------------------------------------------------------------------ the table and the worker

  /** `domain_jobs` under the statements of `jobs`. */
  class JobQueue {
    var now: int
    var jobs: seq<Job>

    constructor (now: int)
      ensures this.now == now && jobs == []
    {
      this.now, jobs := now, [];
    }

    method EnqueueJob(kind: string, ref: nat, delay: nat) returns (inserted: bool)
      modifies this`jobs
      ensures (jobs, inserted) == Enqueue(old(jobs), kind, ref, now + delay)
    {
      inserted := !HasActive(jobs, kind, ref);
      if inserted {
        jobs := jobs + [Job(kind, ref, Queued, 0, now + delay, None)];
      }
    }

    /** `claim`: the earliest job that is due, or whose lease ran out. */
    method ClaimJob(lease: nat) returns (claimed: Option<Hold>)
      modifies this`jobs
      ensures claimed.None? ==> jobs == old(jobs) && forall i :: 0 <= i < |jobs| ==> !IsClaimable(jobs[i], now)
      ensures claimed.Some? ==>
                var h := claimed.value;
                && h.job < |old(jobs)| && IsClaimable(old(jobs)[h.job], now)
                && (forall i :: 0 <= i < |old(jobs)| && IsClaimable(old(jobs)[i], now) ==>
                      old(jobs)[h.job].runAfter <= old(jobs)[i].runAfter)
                && h == Hold(h.job, old(jobs)[h.job].attempts + 1, now + lease)
                && jobs == old(jobs)[h.job := Claimed(old(jobs)[h.job], now + lease)]
    {
      var best: Option<nat> := None;
      for i := 0 to |jobs|
        invariant best.None? ==> forall k :: 0 <= k < i ==> !IsClaimable(jobs[k], now)
        invariant best.Some? ==> best.value < i && IsClaimable(jobs[best.value], now)
        invariant best.Some? ==>
                    forall k :: 0 <= k < i && IsClaimable(jobs[k], now) ==> jobs[best.value].runAfter <= jobs[k].runAfter
      {
        if IsClaimable(jobs[i], now) {
          if best.None? || jobs[i].runAfter < jobs[best.value].runAfter { best := Some(i); }
        }
      }
      if best.None? {
        return None;
      }
      var j := jobs[best.value];
      jobs := jobs[best.value := j.(status := Running, attempts := j.attempts + 1, lockedUntil := Some(now + lease))];
      claimed := Some(Hold(best.value, j.attempts + 1, now + lease));
    }

    method Finish(id: nat)
      requires id < |jobs|
      modifies this`jobs
      ensures jobs == old(jobs)[id := Finished(old(jobs)[id])]
    {
      jobs := jobs[id := jobs[id].(status := Done, lockedUntil := None)];
    }

    method RetryLater(id: nat, delay: int)
      requires id < |jobs|
      modifies this`jobs
      ensures jobs == old(jobs)[id := Requeued(old(jobs)[id], now + delay)]
    {
      jobs := jobs[id := jobs[id].(status := Queued, lockedUntil := None, runAfter := now + delay)];
    }

    method Fail(id: nat)
      requires id < |jobs|
      modifies this`jobs
      ensures jobs == old(jobs)[id := GivenUp(old(jobs)[id])]
    {
      jobs := jobs[id := jobs[id].(status := Failed, lockedUntil := None)];
    }

    method CancelQueued(kind: string, ref: nat)
      modifies this`jobs
      ensures jobs == CancelAll(old(jobs), kind, ref)
    {
      for i := 0 to |jobs|
        invariant |jobs| == |old(jobs)|
        invariant forall k :: 0 <= k < i ==> jobs[k] == Cancelled(old(jobs)[k], kind, ref)
        invariant forall k :: i <= k < |jobs| ==> jobs[k] == old(jobs)[k]
      {
        if jobs[i].status.Queued? && jobs[i].kind == kind && jobs[i].ref == ref {
          jobs := jobs[i := jobs[i].(status := Done)];
        }
      }
      assert jobs == CancelAll(old(jobs), kind, ref);
    }
  }

  /** The jobs after one claimed job was worked on. */
  function Worked(jobs: seq<Job>, i: nat, now: int, s: Settings, report: Report): seq<Job>
    requires i < |jobs|
  {
    jobs[i := AfterReport(Claimed(jobs[i], now + s.lease), Hold(i, jobs[i].attempts + 1, now + s.lease), report, now, s)]
  }

  class Worker {
    const queue: JobQueue
    const settings: Settings

    constructor (queue: JobQueue, settings: Settings)
      ensures this.queue == queue && this.settings == settings
    {
      this.queue, this.settings := queue, settings;
    }

    /** `_process` and `_retry_or_fail`. */
    method Process(h: Hold, report: Report)
      requires h.job < |queue.jobs|
      modifies queue`jobs
      ensures queue.jobs ==
              old(queue.jobs)[h.job := AfterReport(old(queue.jobs)[h.job], h, report, queue.now, settings)]
    {
      var last := h.attempts >= settings.maxAttempts;
      if report.Succeeded? {
        queue.Finish(h.job);
      } else if !last {
        queue.RetryLater(h.job, Backoff(h.attempts));
      } else {
        queue.Fail(h.job);
      }
    }

    /** `run_once`. */
    method RunOnce(report: Report) returns (worked: bool)
      modifies queue`jobs
      ensures !worked ==>
                queue.jobs == old(queue.jobs) &&
                forall i :: 0 <= i < |queue.jobs| ==> !IsClaimable(queue.jobs[i], queue.now)
      ensures worked ==>
                exists i :: 0 <= i < |old(queue.jobs)| && IsClaimable(old(queue.jobs)[i], queue.now) &&
                            queue.jobs == Worked(old(queue.jobs), i, queue.now, settings, report)
    {
      var h := queue.ClaimJob(settings.lease);
      if h.None? {
        return false;
      }
      Process(h.value, report);
      assert queue.jobs == Worked(old(queue.jobs), h.value.job, queue.now, settings, report);
      worked := true;
    }

    /** `drain`: it empties the queue unless it was given too few rounds. */
    method Drain(reports: seq<Report>) returns (done: nat)
      requires Inv(World(queue.now, queue.jobs, [], 0), settings)
      modifies queue`jobs
      ensures done <= |reports|
      ensures done < |reports| ==> forall i :: 0 <= i < |queue.jobs| ==> !IsClaimable(queue.jobs[i], queue.now)
      ensures 2 * done <= Remaining(old(World(queue.now, queue.jobs, [], 0)), settings)
    {
      hide Inv, Remaining, IsClaimable;
      ghost var start := World(queue.now, queue.jobs, [], 0);
      done := 0;
      RemainingPositive(start, settings);
      while done < |reports|
        invariant done <= |reports|
        invariant Inv(World(queue.now, queue.jobs, [], 0), settings)
        invariant 2 * done <= Remaining(start, settings) - Remaining(World(queue.now, queue.jobs, [], 0), settings)
      {
        ghost var before := World(queue.now, queue.jobs, [], 0);
        var worked := RunOnce(reports[done]);
        if !worked {
          RemainingPositive(before, settings);
          return;
        }
        ghost var i :| 0 <= i < |before.jobs| && IsClaimable(before.jobs[i], queue.now) &&
          queue.jobs == Worked(before.jobs, i, queue.now, settings, reports[done]);
        OneRound(before, i, reports[done], settings);
        done := done + 1;
      }
      RemainingPositive(World(queue.now, queue.jobs, [], 0), settings);
    }
  }

  /** A claim and its report use up two of what remains. */
  lemma OneRound(w: World, i: nat, report: Report, s: Settings)
    requires Inv(w, s) && w.holds == [] && i < |w.jobs| && IsClaimable(w.jobs[i], w.now)
    ensures var after := w.(jobs := Worked(w.jobs, i, w.now, s, report));
            Inv(after, s) && Remaining(after, s) <= Remaining(w, s) - 2
  {
    hide Inv, Remaining, IsClaimable;
    StepWorks(w, Claim(i), s);
    ClaimKeeps(w, i, s);
    var claimed := Apply(w, Claim(i), s);
    EndKeeps(claimed, 0, report, s);
    StepWorks(claimed, EndWith(0, report), s);
    assert Without(claimed.holds, 0) == [];
    assert Apply(claimed, EndWith(0, report), s) == w.(jobs := Worked(w.jobs, i, w.now, s, report));
  }
}
