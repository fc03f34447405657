/** What the generation protocol guarantees, and one call of it as the program runs it. */
module PaidCalls {
  import opened Strings
  import opened Wallet
  import opened Policy
  import opened Generation
  import Pricing

  // ------------------------------------------------------------------ over every interleaving

  /** One row for a request, whatever the calls and recoveries did. */
  lemma OneRowPerRequest(w: World, actions: seq<Action>, i: nat, j: nat)
    requires Initial(w)
    requires var rows := Run(w, actions).rows;
             i < |rows| && j < |rows| && rows[i].user == rows[j].user && rows[i].key == rows[j].key
    ensures i == j
  {
    hide Run, Initial, AllPaid, TrueHistory, OneTrialEach, CallsPoint, Sound, DebitsAreSettled;
    EveryRunKeeps(w, actions);
    assert !(i < j) && !(j < i);
  }

  /** At most one debit for a generation, and only a settlement that committed wrote it. */
  lemma OneDebitPerGeneration(w: World, actions: seq<Action>, i: nat, j: nat)
    requires Initial(w)
    requires var ledger := Run(w, actions).books.rows;
             i < |ledger| && j < |ledger| && ledger[i].key.GenerationKey? && ledger[i].key == ledger[j].key
    ensures i == j
    ensures var after := Run(w, actions); Settles(after.settled, after.books.rows[i].key.id, i)
  {
    hide Run, Initial, AllPaid, TrueHistory, OneTrialEach, CallsPoint, Balanced, Positive, Settles;
    EveryRunKeeps(w, actions);
    var after := Run(w, actions);
    var ledger := after.books.rows;
    assert DebitIsSettled(after.rows, after.settled, i, ledger[i]);
    assert DebitIsSettled(after.rows, after.settled, j, ledger[j]);
    FindUnique(ledger, ledger[i].user, ledger[i].key, i);
    FindUnique(ledger, ledger[i].user, ledger[i].key, j);
  }

  /** A charged generation succeeded, and its debit of that amount is in the ledger. */
  lemma ChargedMeansDebited(w: World, actions: seq<Action>, gen: nat)
    requires Initial(w) && gen < |Run(w, actions).rows| && Run(w, actions).rows[gen].charged > 0
    ensures var after := Run(w, actions);
            var r := after.rows[gen];
            && r.status.Succeeded? && r.tx.Some? && r.tx.value < |after.books.rows|
            && IsRow(after.books.rows[r.tx.value], DebitOf(gen, r.user, r.charged))
  {
    hide Run, Initial, TrueHistory, OneTrialEach, CallsPoint, Sound, OneRowPerKey, DebitsAreSettled, IsRow;
    EveryRunKeeps(w, actions);
    assert IsPaid(Run(w, actions).books, gen, Run(w, actions).rows[gen]);
  }

  lemma OneTrialPerUser(w: World, actions: seq<Action>, j: nat, k: nat)
    requires Initial(w)
    requires j < |Run(w, actions).settled| && k < |Run(w, actions).settled|
    requires var s := Run(w, actions).settled;
             s[j].billing.ByTrial? && s[k].billing.ByTrial? && s[j].user == s[k].user
    ensures j == k
  {
    hide Run, Initial, AllPaid, TrueHistory, CallsPoint, Sound, OneRowPerKey, DebitsAreSettled;
    EveryRunKeeps(w, actions);
    assert !(j < k) && !(k < j);
  }

  /** Only a settlement moves a generation's credits: failures, retries, deaths and recoveries do not. */
  lemma OnlySettlementsPay(w: World, a: Action)
    requires Enabled(w, a) && !a.SettleAndFinalize? && !a.OtherMovement?
    ensures Apply(w, a).books == w.books && Apply(w, a).trialUsed == w.trialUsed && Apply(w, a).settled == w.settled
  {
    hide FindRow, Decide;
  }

  /** Exactly when a delivered generation goes unpaid, and when its settlement is abandoned. */
  lemma SettlementOutcomes(w: World, gen: nat, user: nat, kind: BillingKind, credits: int)
    requires Sound(w.books)
    ensures var s := Settle(w, gen, user, kind, credits).2;
            var trial := kind.ByTrial? && user !in w.trialUsed;
            var t := DebitOf(gen, user, credits);
            && (s.Some? && s.value.billing.Unbilled? <==>
                  !trial && (credits <= 0 ||
                    (!HasKey(w.books.rows, user, t.key) && Net(w.books.rows, user) < credits)))
            && (s.None? <==> !trial && credits > 0 && HasKey(w.books.rows, user, t.key) && !HasRow(w.books.rows, t))
  {
    hide Sound, HasKey, HasRow, Move, Net;
    MoveOutcomes(w.books, DebitOf(gen, user, credits));
    assert Move(w.books, DebitOf(gen, user, credits)).1.Insufficient? ==> credits > 0;
  }

  // ------------------------------------------------------------------ what is written and reported

  /** Credits, a debit and the billing kind go together. */
  predicate IsTidy(r: Row) {
    (r.tx.Some? <==> r.billing.ByCredits?) && (r.billing.ByCredits? <==> r.charged > 0) && r.attempt >= 1
  }

  ghost predicate Wrote(settled: seq<Settlement>, gen: nat, charged: int) {
    exists k :: 0 <= k < |settled| && settled[k].gen == gen && settled[k].charged == charged
  }

  /** A result is that of a settlement, or the replay of an earlier one, which costs nothing. */
  ghost predicate IsTrueReport(w: World, c: Call) {
    c.Ended? && c.result.Delivered? ==>
      && c.result.gen < |w.rows|
      && (if c.result.replay then c.result.charged == 0 else Wrote(w.settled, c.result.gen, c.result.charged))
  }

  ghost predicate AreTidy(w: World) {
    && (forall i :: 0 <= i < |w.rows| ==> IsTidy(w.rows[i]))
    && (forall k :: 0 <= k < |w.calls| ==> IsTrueReport(w, w.calls[k]))
  }

  lemma SettlementIsTidy(w: World, gen: nat, user: nat, kind: BillingKind, credits: int)
    ensures var s := Settle(w, gen, user, kind, credits).2;
            s.Some? ==>
              && s.value.gen == gen && (s.value.tx.Some? <==> s.value.billing.ByCredits?)
              && (s.value.billing.ByCredits? <==> s.value.charged > 0)
  {
    hide Move;
    if credits > 0 { MoveIsNotInvalid(w.books, DebitOf(gen, user, credits)); }
  }

  lemma MoveIsNotInvalid(b: Books, t: Tx)
    requires t.amount > 0
    ensures !Move(b, t).1.Invalid?
  {}

  lemma ReportStays(w: World, w2: World, c: Call)
    requires IsTrueReport(w, c) && |w.rows| <= |w2.rows| && w.settled <= w2.settled
    ensures IsTrueReport(w2, c)
  {
    if c.Ended? && c.result.Delivered? && !c.result.replay {
      var k :| 0 <= k < |w.settled| && w.settled[k].gen == c.result.gen && w.settled[k].charged == c.result.charged;
      assert w2.settled[k] == w.settled[k];
    }
  }

  /** A step changes one call, and adds or changes one row at most. */
  lemma OneCallIsTidy(w: World, w2: World, call: nat)
    requires AreTidy(w) && call < |w2.calls| && w.settled <= w2.settled && |w.rows| <= |w2.rows|
    requires |w.calls| <= |w2.calls| <= |w.calls| + 1
    requires forall k :: 0 <= k < |w2.calls| && k != call ==> k < |w.calls| && w2.calls[k] == w.calls[k]
    requires IsTrueReport(w2, w2.calls[call])
    requires forall i :: 0 <= i < |w2.rows| ==> IsTidy(w2.rows[i])
    ensures AreTidy(w2)
  {
    hide IsTidy, IsTrueReport;
    forall k | 0 <= k < |w2.calls| ensures IsTrueReport(w2, w2.calls[k]) {
      var c := w2.calls[k];
      if k != call { ReportStays(w, w2, c); }
    }
  }

  lemma SettleIsTidy(w: World, a: Action)
    requires AreTidy(w) && a.SettleAndFinalize? && Enabled(w, a)
    ensures AreTidy(Apply(w, a))
  {
    hide Settle;
    var c := w.calls[a.call];
    var w2 := Apply(w, a);
    SettlementIsTidy(w, c.gen, w.rows[c.gen].user, c.kind, c.credits);
    var s := Settle(w, c.gen, w.rows[c.gen].user, c.kind, c.credits).2;
    if s.Some? { assert w2.settled[|w.settled|] == s.value; }
    OneCallIsTidy(w, w2, a.call);
  }

  lemma AnchorIsTidy(w: World, a: Action)
    requires AreTidy(w) && a.TakeAnchor? && Enabled(w, a)
    ensures AreTidy(Apply(w, a))
  {
    hide FindRow;
    OneCallIsTidy(w, Apply(w, a), a.call);
  }

  lemma StepIsTidy(w: World, a: Action)
    requires AreTidy(w) && Enabled(w, a)
    ensures AreTidy(Apply(w, a))
  {
    hide AnchorStep, SettleStep, Decide, Move;
    match a
    case TakeAnchor(_) => AnchorIsTidy(w, a);
    case SettleAndFinalize(_) => SettleIsTidy(w, a);
    case Start(_, _) => OneCallIsTidy(w, Apply(w, a), |w.calls|);
    case RecoverOrphan(_) =>
      forall k | 0 <= k < |w.calls| ensures IsTrueReport(Apply(w, a), w.calls[k]) {
        ReportStays(w, Apply(w, a), w.calls[k]);
      }
    case OtherMovement(_) =>
      forall k | 0 <= k < |w.calls| ensures IsTrueReport(Apply(w, a), w.calls[k]) {
        ReportStays(w, Apply(w, a), w.calls[k]);
      }
    case _ => OneCallIsTidy(w, Apply(w, a), a.call);
  }

  /** In every run a row names a debit exactly if it was charged, and a call reports the credits of the settlement it
      made, or zero for a replay. */
  lemma {:induction false} ReportsAreTrue(w: World, actions: seq<Action>)
    requires Initial(w)
    ensures AreTidy(Run(w, actions))
  {
    hide AreTidy, Apply, Enabled;
    if |actions| == 0 {
      NothingIsTidy(w);
    } else {
      ReportsAreTrue(w, actions[..|actions| - 1]);
      var before := Run(w, actions[..|actions| - 1]);
      if Enabled(before, actions[|actions| - 1]) { StepIsTidy(before, actions[|actions| - 1]); }
    }
  }

  lemma NothingIsTidy(w: World)
    requires Initial(w)
    ensures AreTidy(w)
  {}

  /** A row counts its attempts: one more with every reopening. */
  lemma AttemptsAreCounted(w: World, a: Action, i: nat)
    requires Enabled(w, a) && i < |w.rows|
    ensures i < |Apply(w, a).rows|
    ensures Apply(w, a).rows[i].attempt ==
            w.rows[i].attempt +
            if a.RetryAnchor? && w.calls[a.call].gen == i && Apply(w, a).calls[a.call].AtProvider? then 1 else 0
  {
    hide FindRow, Decide, Settle, Move;
  }

  // ------------------------------------------------------------------ one call by itself

  /** What the surroundings contribute to a call: the subscription, the gates, the provider. */
  datatype Order = Order(user: nat, key: string, subscription: SubscriptionStatus, estimate: int,
                         verdicts: seq<Option<Decision>>, tooMany: bool, delivered: Option<int>)

  function AtGateOf(w: World, o: Order): World { Apply(w, Start(o.user, o.key)) }

  function Gated(w: World, o: Order): (gated: World)
    ensures |gated.calls| == |w.calls| + 1
  {
    GateStep(AtGateOf(w, o), PassGate(|w.calls|, o.subscription, o.estimate, o.verdicts))
  }

  function Anchored(w: World, o: Order): World
    requires Gated(w, o).calls[|w.calls|].AtAnchor?
  {
    var w3 := AnchorStep(Gated(w, o), TakeAnchor(|w.calls|));
    if w3.calls[|w.calls|].AtRetry? then Apply(w3, RetryAnchor(|w.calls|)) else w3
  }

  function Finished(w: World, call: nat, delivered: Option<int>): World
    requires call < |w.calls| && w.calls[call].AtProvider? && w.calls[call].gen < |w.rows|
  {
    if delivered.None? then Apply(Apply(w, ProviderFails(call)), RecordFailure(call))
    else Apply(Apply(w, ProviderDelivers(call, delivered.value)), SettleAndFinalize(call))
  }

  /** `run` with nothing in between. */
  function Alone(w: World, o: Order): (after: World)
    ensures |after.calls| == |w.calls| + 1
  {
    var call := |w.calls|;
    var gated := Gated(w, o);
    if !gated.calls[call].AtAnchor? then gated
    else if o.tooMany then Apply(gated, RefuseInflight(call))
    else
      var anchored := Anchored(w, o);
      if !anchored.calls[call].AtProvider? then anchored else Finished(anchored, call, o.delivered)
  }

  lemma Extend(w: World, actions: seq<Action>, a: Action)
    requires Enabled(Run(w, actions), a)
    ensures Run(w, actions + [a]) == Apply(Run(w, actions), a)
  {
    hide Apply, Enabled;
    assert (actions + [a])[..|actions|] == actions;
  }

  ghost predicate Reaches(w: World, after: World) { exists actions :: Run(w, actions) == after }

  lemma ReachesNext(w: World, now: World, a: Action)
    requires Reaches(w, now) && Enabled(now, a)
    ensures Reaches(w, Apply(now, a))
  {
    hide Run, Apply, Enabled;
    var actions :| Run(w, actions) == now;
    Extend(w, actions, a);
  }

  /** A call by itself is one of the interleavings. */
  lemma AloneIsARun(w: World, o: Order)
    ensures Reaches(w, Alone(w, o))
  {
    hide Reaches, Settle, FindRow, Move, Decide, Reopen, FailRow;
    var call := |w.calls|;
    assert Reaches(w, w) by { NoActions(w); }
    ReachesNext(w, w, Start(o.user, o.key));
    ReachesNext(w, AtGateOf(w, o), PassGate(call, o.subscription, o.estimate, o.verdicts));
    var gated := Gated(w, o);
    if gated.calls[call].AtAnchor? {
      if o.tooMany {
        ReachesNext(w, gated, RefuseInflight(call));
      } else {
        AnchoredIsReached(w, o);
        var anchored := Anchored(w, o);
        if anchored.calls[call].AtProvider? { FinishedIsReached(w, anchored, call, o.delivered); }
      }
    }
  }

  lemma NoActions(w: World)
    ensures Reaches(w, w)
  {
    assert Run(w, []) == w;
  }

  lemma AnchoredIsReached(w: World, o: Order)
    requires Gated(w, o).calls[|w.calls|].AtAnchor? && Reaches(w, Gated(w, o))
    ensures Reaches(w, Anchored(w, o))
  {
    hide Reaches, Gated, Reopen;
    var call := |w.calls|;
    ReachesNext(w, Gated(w, o), TakeAnchor(call));
    var w3 := AnchorStep(Gated(w, o), TakeAnchor(call));
    if w3.calls[call].AtRetry? { ReachesNext(w, w3, RetryAnchor(call)); }
  }

  lemma FinishedIsReached(w: World, now: World, call: nat, delivered: Option<int>)
    requires call < |now.calls| && now.calls[call].AtProvider? && now.calls[call].gen < |now.rows|
    requires Reaches(w, now)
    ensures Reaches(w, Finished(now, call, delivered))
  {
    hide Reaches, Settle, FailRow;
    if delivered.None? {
      ReachesNext(w, now, ProviderFails(call));
      ReachesNext(w, Apply(now, ProviderFails(call)), RecordFailure(call));
    } else {
      ReachesNext(w, now, ProviderDelivers(call, delivered.value));
      ReachesNext(w, Apply(now, ProviderDelivers(call, delivered.value)), SettleAndFinalize(call));
    }
  }

  /** The request is new, or failed before without ever being debited. */
  predicate IsOpen(w: World, o: Order) {
    var at := FindRow(w.rows, o.user, o.key);
    at < |w.rows| ==>
      w.rows[at].status.Failed? && w.rows[at].charged == 0 && !HasKey(w.books.rows, o.user, GenerationKey(at))
  }

  function Allowed(w: World, o: Order): Decision {
    Decide(PolicyState(o.subscription, o.user in w.trialUsed, Balance(w.books, o.user)), o.estimate, o.verdicts)
  }

  lemma FreshGeneration(w: World, user: nat, gen: nat)
    requires Inv(w) && gen >= |w.rows|
    ensures !HasKey(w.books.rows, user, GenerationKey(gen))
  {
    hide Sound, OneRowPerKey, AllPaid, TrueHistory, OneTrialEach, CallsPoint, Settles;
    forall i | 0 <= i < |w.books.rows| ensures w.books.rows[i].key != GenerationKey(gen) {
      assert DebitIsSettled(w.rows, w.settled, i, w.books.rows[i]);
    }
  }

  /** Where an allowed call stands when it reaches the provider. */
  lemma ReachesProvider(w: World, o: Order)
    requires Inv(w) && IsOpen(w, o) && Allowed(w, o).Allow?
    ensures Gated(w, o).calls[|w.calls|] == AtAnchor(o.user, o.key, Allowed(w, o).kind)
    ensures var anchored := Anchored(w, o);
            var at := FindRow(w.rows, o.user, o.key);
            && |anchored.calls| == |w.calls| + 1 && anchored.calls[|w.calls|] == AtProvider(at, Allowed(w, o).kind)
            && at < |anchored.rows| && anchored.rows[at].user == o.user && anchored.rows[at].key == o.key
            && anchored.books == w.books && anchored.trialUsed == w.trialUsed && anchored.settled == w.settled
            && !HasKey(w.books.rows, o.user, GenerationKey(at))
  {
    hide Inv, Decide, HasKey;
    var at := FindRow(w.rows, o.user, o.key);
    if at == |w.rows| { FreshGeneration(w, o.user, at); }
  }

  /** A settlement for the very price the gate asked for is never unbilled. */
  lemma SettlesAsDecided(w: World, gen: nat, o: Order)
    requires Sound(w.books) && !HasKey(w.books.rows, o.user, GenerationKey(gen))
    requires Allowed(w, o).Allow? && o.estimate > 0
    ensures var kind := Allowed(w, o).kind;
            var (books, trialUsed, s) := Settle(w, gen, o.user, kind, o.estimate);
            && s.Some? && s.value.billing == kind && (kind.ByCredits? || kind.ByTrial?)
            && s.value.charged == (if kind.ByCredits? then o.estimate else 0)
            && Balance(books, o.user) == Balance(w.books, o.user) - s.value.charged
            && (kind.ByTrial? ==> o.user in trialUsed)
  {
    hide Sound, HasKey;
    var s := PolicyState(o.subscription, o.user in w.trialUsed, Balance(w.books, o.user));
    AllowedMeans(s, o.estimate, o.verdicts) by { hide *; }
    if Allowed(w, o).kind.ByCredits? {
      var t := DebitOf(gen, o.user, o.estimate);
      Payable(w.books, t);
    }
  }

  lemma Payable(b: Books, t: Tx)
    requires t.amount > 0 && !HasKey(b.rows, t.user, t.key) && t.kind.Debit? && t.amount <= Balance(b, t.user)
    ensures Move(b, t).1.Done? && Move(b, t).1.tx == |b.rows|
    ensures Balance(Move(b, t).0, t.user) == Balance(b, t.user) - t.amount
  {
    var at := FindTx(b.rows, t.user, t.key);
    assert at < |b.rows| ==> HasKey(b.rows, t.user, t.key);
    MoveEffect(b, t, t.user);
  }

  /** One settlement more, by credits at this price or by the trial, and the row and balance to match. */
  predicate IsPaidFor(w: World, o: Order, after: World, price: int) {
    && |after.settled| == |w.settled| + 1
    && var s := after.settled[|w.settled|];
       && Allowed(w, o) == Allow(s.billing) && (s.billing.ByCredits? || s.billing.ByTrial?)
       && s.charged == (if s.billing.ByCredits? then price else 0)
       && Balance(after.books, o.user) == Balance(w.books, o.user) - s.charged
       && s.gen < |after.rows| && after.rows[s.gen].status.Succeeded? && after.rows[s.gen].key == o.key
       && after.rows[s.gen].charged == s.charged
       && |after.calls| == |w.calls| + 1 && after.calls[|w.calls|] == Ended(Delivered(s.gen, s.charged, false))
  }

  /** A call that policy allows, at a price charged as it was quoted, is paid: by credits or the trial. */
  lemma NeverUnbilledAlone(w: World, o: Order)
    requires Inv(w) && IsOpen(w, o) && Allowed(w, o).Allow? && !o.tooMany
    requires o.delivered == Some(o.estimate) && o.estimate > 0
    ensures IsPaidFor(w, o, Alone(w, o), o.estimate)
  {
    hide Inv, Allowed, Gated, Anchored, HasKey, Settle, FindRow;
    ReachesProvider(w, o);
    var anchored := Anchored(w, o);
    var at := FindRow(w.rows, o.user, o.key);
    assert Sound(w.books) by { InvSound(w); }
    SettlesAsDecided(w, at, o);
    SettleDependsOn(w, anchored, at, o.user, Allowed(w, o).kind, o.estimate);
    SettleNames(w, at, o.user, Allowed(w, o).kind, o.estimate);
  }

  lemma InvSound(w: World)
    requires Inv(w)
    ensures Sound(w.books)
  {}

  lemma SettleDependsOn(w: World, w2: World, gen: nat, user: nat, kind: BillingKind, credits: int)
    requires w.books == w2.books && w.trialUsed == w2.trialUsed
    ensures forall calls :: Settle(w2.(calls := calls), gen, user, kind, credits) == Settle(w, gen, user, kind, credits)
  {}

  lemma SettleNames(w: World, gen: nat, user: nat, kind: BillingKind, credits: int)
    ensures var s := Settle(w, gen, user, kind, credits).2; s.Some? ==> s.value.gen == gen && s.value.user == user
  {}

  /** The summary of a chunk sequence: quoted before, charged after, never for nothing. */
  lemma SummaryIsPaid(w: World, o: Order, lengths: seq<nat>, settings: Pricing.Settings)
    requires Inv(w) && IsOpen(w, o) && Allowed(w, o).Allow? && !o.tooMany && settings.maxBatches >= 0
    requires o.estimate == Pricing.Quote(lengths, settings) && o.estimate > 0
    requires o.delivered == Some(Pricing.Charge(Pricing.UnitsOf(lengths, settings), settings))
    ensures IsPaidFor(w, o, Alone(w, o), Pricing.Quote(lengths, settings))
  {
    hide Inv, IsOpen, Allowed, Alone, IsPaidFor, Pricing.Quote, Pricing.Charge, Pricing.UnitsOf;
    Pricing.QuoteIsCharge(lengths, settings);
    NeverUnbilledAlone(w, o);
  }

  // ------------------------------------------------------------------ the service

  lemma One<T>(x: T, y: T)
    ensures [x][0 := y] == [y] && [] + [x] == [x]
  {}

  /** The rows and the state of a call once its anchor is committed. */
  function AnchorAndReopen(rows: seq<Row>, user: nat, key: string, kind: BillingKind): (seq<Row>, Call) {
    var (after, next) := Anchor(rows, user, key, kind);
    if !next.AtRetry? then (after, next)
    else match Reopen(after[next.gen])
      case Some(r) => (after[next.gen := r], AtProvider(next.gen, kind))
      case None => (after, Ended(Aborted))
  }

  lemma AloneGated(w: World, o: Order)
    requires w.calls == []
    ensures Gated(w, o) == w.(calls := [if Allowed(w, o).Allow? then AtAnchor(o.user, o.key, Allowed(w, o).kind)
                                        else Ended(Blocked(Allowed(w, o).reason))])
  {
    hide Decide;
    One(AtGate(o.user, o.key), Gated(w, o).calls[0]);
  }

  lemma AloneAnchored(w: World, o: Order)
    requires w.calls == [] && Allowed(w, o).Allow?
    ensures Gated(w, o).calls[0].AtAnchor?
    ensures var (rows, next) := AnchorAndReopen(w.rows, o.user, o.key, Allowed(w, o).kind);
            Anchored(w, o) == w.(rows := rows, calls := [next])
  {
    hide Gated, Allowed, FindRow;
    AloneGated(w, o);
    var kind := Allowed(w, o).kind;
    var (rows, next) := Anchor(w.rows, o.user, o.key, kind);
    One(AtAnchor(o.user, o.key, kind), next);
    One(next, AnchorAndReopen(w.rows, o.user, o.key, kind).1);
  }

  lemma FinishedAs(w: World, gen: nat, kind: BillingKind, delivered: Option<int>)
    requires w.calls == [AtProvider(gen, kind)] && gen < |w.rows|
    ensures var after := Finished(w, 0, delivered);
            match delivered
            case Some(credits) => after == SettleStep(w.(calls := [AtSettle(gen, kind, credits)]), SettleAndFinalize(0))
            case None =>
              match FailRow(w.rows[gen])
              case Some(r) => after == w.(rows := w.rows[gen := r], calls := [Ended(UpstreamFailed)])
              case None => after == w.(calls := [Ended(Aborted)])
  {
    hide Settle;
    One(AtProvider(gen, kind), AtFail(gen));
    if delivered.Some? { One(AtProvider(gen, kind), AtSettle(gen, kind, delivered.value)); }
    One(AtFail(gen), Ended(UpstreamFailed));
    One(AtFail(gen), Ended(Aborted));
  }

  /** `Alone` case by case, for tables with no other call in flight. */
  lemma AloneCases(w: World, o: Order)
    requires w.calls == []
    ensures var d := Allowed(w, o);
            d.Block? ==> Alone(w, o) == w.(calls := [Ended(Blocked(d.reason))])
    ensures Allowed(w, o).Allow? && o.tooMany ==> Alone(w, o) == w.(calls := [Ended(TooManyInflight)])
    ensures Allowed(w, o).Allow? && !o.tooMany ==>
              var (rows, next) := AnchorAndReopen(w.rows, o.user, o.key, Allowed(w, o).kind);
              var anchored := w.(rows := rows, calls := [next]);
              if next.AtProvider? then next.gen < |rows| && Alone(w, o) == Finished(anchored, 0, o.delivered)
              else Alone(w, o) == anchored
  {
    hide Gated, Anchored, AnchorAndReopen, Allowed, Finished;
    AloneGated(w, o);
    if Allowed(w, o).Allow? {
      One(AtAnchor(o.user, o.key, Allowed(w, o).kind), Ended(TooManyInflight));
      AloneAnchored(w, o);
      ReopenedPoints(w.rows, o.user, o.key, Allowed(w, o).kind);
    }
  }

  lemma ReopenedPoints(rows: seq<Row>, user: nat, key: string, kind: BillingKind)
    ensures PointsAtRow(AnchorAndReopen(rows, user, key, kind).0, AnchorAndReopen(rows, user, key, kind).1)
  {}

  /** `GenerationService` over `generations`, the trial flags and the wallet. */
  class GenerationService {
    const wallet: WalletService
    var rows: seq<Row>
    var trialUsed: set<nat>
    ghost var settled: seq<Settlement>

    /** The tables as a world without calls in flight. */
    ghost function State(): World
      reads this, wallet
    {
      World(wallet.State(), rows, trialUsed, [], settled)
    }

    constructor (wallet: WalletService)
      ensures this.wallet == wallet && rows == [] && trialUsed == {} && settled == []
    {
      this.wallet, rows, trialUsed, settled := wallet, [], {}, [];
    }

    /** The anchor, committed before the provider is called. */
    method AnchorRequest(user: nat, key: string, kind: BillingKind) returns (next: Call)
      modifies this`rows
      ensures (rows, next) == Anchor(old(rows), user, key, kind)
    {
      hide FindRow;
      var at := FindRow(rows, user, key);
      if at == |rows| {
        rows := rows + [NewRow(user, key)];
        return AtProvider(at, kind);
      }
      if rows[at].status.Succeeded? {
        return Ended(Delivered(at, 0, true));
      } else if rows[at].status.Running? {
        return Ended(AlreadyInProgress);
      } else {
        return AtRetry(at, kind);
      }
    }

    /** An update of a row under its CHECK; `None` is the refusal, which leaves the row alone. */
    method UpdateRow(gen: nat, row: Option<Row>) returns (updated: bool)
      requires gen < |rows|
      modifies this`rows
      ensures updated == row.Some?
      ensures rows == if row.Some? then old(rows)[gen := row.value] else old(rows)
    {
      updated := row.Some?;
      if updated { rows := rows[gen := row.value]; }
    }

    /** `flip_trial`: the one lifetime trial. */
    method FlipTrial(user: nat) returns (flipped: bool)
      modifies this`trialUsed
      ensures flipped == (user !in old(trialUsed))
      ensures trialUsed == old(trialUsed) + {user}
    {
      flipped := user !in trialUsed;
      trialUsed := trialUsed + {user};
    }

    /** `_settle` and `finalize`, one transaction. */
    method SettleAndFinalizeRow(gen: nat, kind: BillingKind, credits: int) returns (result: Result)
      requires gen < |rows|
      modifies this, wallet
      ensures var w := old(State()).(calls := [AtSettle(gen, kind, credits)]);
              SettleStep(w, SettleAndFinalize(0)) == State().(calls := [Ended(result)])
    {
      hide Move;
      var user := rows[gen].user;
      var s: Settlement;
      var flipped := false;
      if kind.ByTrial? {
        flipped := FlipTrial(user);
      }
      if flipped {
        s := Settlement(gen, user, ByTrial, 0, None);
      } else if credits <= 0 {
        s := Settlement(gen, user, Unbilled, 0, None);
      } else {
        ghost var before := wallet.State();
        var r := wallet.Consume(user, credits, GenerationKey(gen), ForGeneration);
        if r.Done? {
          s := Settlement(gen, user, ByCredits, credits, Some(r.tx));
        } else {
          RefusalChangesNothing(before, DebitOf(gen, user, credits));
          if !r.Insufficient? {
            assert trialUsed == old(trialUsed);
            return Aborted;
          }
          s := Settlement(gen, user, Unbilled, 0, None);
        }
      }
      assert kind.ByTrial? && !flipped ==> trialUsed == old(trialUsed);
      rows := rows[gen := Finalize(rows[gen], s)];
      settled := settled + [s];
      result := Delivered(gen, s.charged, false);
    }

    /** `run`: gate, fuse, anchor, provider, settlement, in this order. */
    method RunCall(o: Order) returns (result: Result)
      modifies this, wallet
      ensures State().(calls := [Ended(result)]) == Alone(old(State()), o)
    {
      hide Settle, FindRow, Decide, Alone, Finished, SettleStep;
      ghost var w := State();
      AloneCases(w, o);
      var balance := if o.user in wallet.balances then wallet.balances[o.user] else 0;
      var d := Decide(PolicyState(o.subscription, o.user in trialUsed, balance), o.estimate, o.verdicts);
      if d.Block? {
        return Blocked(d.reason);
      }
      if o.tooMany {
        return TooManyInflight;
      }
      var next := AnchorRequest(o.user, o.key, d.kind);
      if next.AtRetry? {
        AnchorPoints(w.rows, o.user, o.key, d.kind);
        var reopened := UpdateRow(next.gen, Reopen(rows[next.gen]));
        next := if reopened then AtProvider(next.gen, d.kind) else Ended(Aborted);
      }
      if !next.AtProvider? {
        NextIsResult(w.rows, o.user, o.key, d.kind);
        return next.result;
      }
      ReopenedPoints(w.rows, o.user, o.key, d.kind);
      FinishedAs(State().(calls := [next]), next.gen, d.kind, o.delivered);
      if o.delivered.None? {
        var failed := UpdateRow(next.gen, FailRow(rows[next.gen]));
        result := if failed then UpstreamFailed else Aborted;
      } else {
        result := SettleAndFinalizeRow(next.gen, d.kind, o.delivered.value);
      }
    }
  }

  lemma AnchorPoints(rows: seq<Row>, user: nat, key: string, kind: BillingKind)
    ensures PointsAtRow(Anchor(rows, user, key, kind).0, Anchor(rows, user, key, kind).1)
  {}

  lemma NextIsResult(rows: seq<Row>, user: nat, key: string, kind: BillingKind)
    ensures var next := Anchor(rows, user, key, kind).1; next.AtProvider? || next.AtRetry? || next.Ended?
  {}
}
