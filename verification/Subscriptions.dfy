/** CloudPayments: what a verified payment does to credits and to access. */
module Subscriptions {
  import opened Strings
  import opened Periods
  import opened Wallet
  import opened Payments
  import Journal

  const CHANNEL := "cloudpayments"
  const DEFAULT_DAYS := 30

  /** A row of `subscriptions`. */
  datatype Access = Access(active: bool, plan: string, expiresAt: Option<Moment>)

  /** A payment the aggregator confirmed; `kind` is `None` for a class that is not modelled. */
  datatype Verified = Verified(id: string, user: nat, product: string, kind: Option<PaymentKind>, paidAt: Moment)

  datatype Settings = Settings(products: map<string, Product>, periods: map<string, Period>)

  datatype World = World(store: Store, access: map<nat, Access>, now: Moment)

  datatype Result = Skipped | GivenUp | Journalled(answer: Answer)

  ghost predicate ValidAccess(access: map<nat, Access>) {
    forall u :: u in access && access[u].expiresAt.Some? ==> IsMoment(access[u].expiresAt.value)
  }

  ghost predicate Valid(c: Settings, w: World) {
    IsMoment(w.now) && ValidAccess(w.access) && forall p :: p in c.periods ==> IsPeriod(c.periods[p])
  }

  // ------------------------------------------------------------------ the steps

  /** The expiry that is still ahead, of access that is active. */
  function Current(w: World, user: nat): Option<Moment> {
    if user !in w.access || !w.access[user].active || w.access[user].expiresAt.None? then None
    else if Instant(w.now) < Instant(w.access[user].expiresAt.value) then w.access[user].expiresAt
    else None
  }

  function Later(a: Moment, b: Moment): Moment { if Instant(a) < Instant(b) then b else a }

  /** The period starts at the payment, or where the access already paid for ends. */
  function StartOf(paidAt: Moment, current: Option<Moment>): Moment {
    if current.Some? then Later(paidAt, current.value) else paidAt
  }

  function PeriodOf(c: Settings, product: string): Period {
    if product in c.periods then c.periods[product] else Period(DEFAULT_DAYS, Days)
  }

  /** `_upsert_subscription`; `None` when the period ends beyond the calendar. */
  function Extended(c: Settings, w: World, p: Verified): Option<Access>
    requires Valid(c, w) && IsMoment(p.paidAt)
  {
    var end := AddPeriod(StartOf(p.paidAt, Current(w, p.user)), PeriodOf(c, p.product));
    if end.None? then None else Some(Access(true, p.product, Some(end.value)))
  }

  function DeliveryOf(p: Verified): Delivery
    requires p.kind.Some?
  {
    Delivery(p.user, CHANNEL, p.id, p.kind.value, Some(p.product), Some("cp-txn:" + p.id))
  }

  predicate Extends(p: Verified, answer: Answer) {
    p.kind == Some(Subscription) && answer.Recorded? && answer.status.Granted?
  }

  /** `_apply_payment`: the journal and the access in one transaction. */
  function ApplyPayment(c: Settings, w: World, p: Verified): (World, Result)
    requires Valid(c, w) && IsMoment(p.paidAt)
  {
    if p.kind.None? then (w, Skipped)
    else
      var (store, answer) := Record(c.products, w.store, DeliveryOf(p));
      if answer.Raised? then (w, GivenUp)
      else if !Extends(p, answer) then (w.(store := store), Journalled(answer))
      else
        var a := Extended(c, w, p);
        if a.None? then (w, GivenUp)
        else (w.(store := store, access := w.access[p.user := a.value]), Journalled(answer))
  }

  datatype Op =
    | Deliver(p: Verified)
    | OtherMoney(op: Payments.Op)
    | OtherAccess(user: nat, access: Access)
    | Clock(now: Moment)

  predicate IsOp(op: Op) {
    match op
    case Deliver(p) => IsMoment(p.paidAt)
    case OtherAccess(_, a) => a.expiresAt.Some? ==> IsMoment(a.expiresAt.value)
    case Clock(now) => IsMoment(now)
    case OtherMoney(_) => true
  }

  function Step(c: Settings, w: World, op: Op): World
    requires Valid(c, w) && IsOp(op)
  {
    match op
    case Deliver(p) => ApplyPayment(c, w, p).0
    case OtherMoney(op) => w.(store := Payments.Step(c.products, w.store, op))
    case OtherAccess(user, a) => w.(access := w.access[user := a])
    case Clock(now) => w.(now := now)
  }

  lemma StepIsValid(c: Settings, w: World, op: Op)
    requires Valid(c, w) && IsOp(op)
    ensures Valid(c, Step(c, w, op))
  {
    hide IsMoment, Record, Payments.Step;
    hide AddPeriod, Current;
    if op.Deliver? {
      if Extended(c, w, op.p).Some? { ExtendedIsValid(c, w, op.p); }
    }
  }

  function Run(c: Settings, w: World, ops: seq<Op>): (after: World)
    requires Valid(c, w) && forall op :: op in ops ==> IsOp(op)
    ensures Valid(c, after)
  {
    if |ops| == 0 then w
    else
      var before := Run(c, w, ops[..|ops| - 1]);
      StepIsValid(c, before, ops[|ops| - 1]);
      Step(c, before, ops[|ops| - 1])
  }

  // ------------------------------------------------------------------ access follows the payment

  lemma ExtendedIsValid(c: Settings, w: World, p: Verified)
    requires Valid(c, w) && IsMoment(p.paidAt) && Extended(c, w, p).Some?
    ensures var end := Extended(c, w, p).value.expiresAt;
            && end.Some? && IsMoment(end.value) && Instant(p.paidAt) < Instant(end.value)
            && (Current(w, p.user).Some? ==> Instant(Current(w, p.user).value) < Instant(end.value))
  {
    hide AddPeriod, Instant, IsMoment;
    var start := StartOf(p.paidAt, Current(w, p.user));
    PeriodEndsLater(start, PeriodOf(c, p.product));
  }

  /** A granted subscription payment ends access later than it was paid and than access ended before. */
  lemma GrantedPaymentExtends(c: Settings, w: World, p: Verified)
    requires Valid(c, w) && IsMoment(p.paidAt)
    requires ApplyPayment(c, w, p).1.Journalled? && Extends(p, ApplyPayment(c, w, p).1.answer)
    ensures var after := ApplyPayment(c, w, p).0;
            && p.user in after.access && after.access[p.user].active && after.access[p.user].plan == p.product
            && after.access[p.user].expiresAt.Some?
    ensures var after := ApplyPayment(c, w, p).0;
            var end := after.access[p.user].expiresAt.value;
            && Instant(p.paidAt) < Instant(end)
            && (Current(w, p.user).Some? ==> Instant(Current(w, p.user).value) < Instant(end))
            && Some(end) == AddPeriod(StartOf(p.paidAt, Current(w, p.user)), PeriodOf(c, p.product))
            && after.access - {p.user} == w.access - {p.user}
  {
    hide AddPeriod, Instant, IsMoment, Record;
    ExtendedIsValid(c, w, p);
  }

  /** The user's access is active and its end is known and still ahead. */
  predicate IsRunning(w: World, user: nat) {
    && user in w.access && w.access[user].active && w.access[user].expiresAt.Some?
    && Instant(w.access[user].expiresAt.value) > Instant(w.now)
  }

  /** The later of the payment and the end of running access; the payment without such access. */
  predicate IsStart(w: World, p: Verified, start: Moment) {
    if IsRunning(w, p.user) then
      var end := w.access[p.user].expiresAt.value;
      start == if Instant(end) > Instant(p.paidAt) then end else p.paidAt
    else start == p.paidAt
  }

  /** ONE PERIOD FROM THE START. A granted payment buys one period of its product, thirty days if the catalogue names
      none, from the later of its own time and the end of access that still runs. */
  lemma ExpiryExactly(c: Settings, w: World, p: Verified) returns (start: Moment)
    requires Valid(c, w) && IsMoment(p.paidAt)
    requires ApplyPayment(c, w, p).1.Journalled? && Extends(p, ApplyPayment(c, w, p).1.answer)
    ensures IsMoment(start) && IsStart(w, p, start)
    ensures var after := ApplyPayment(c, w, p).0;
            && p.user in after.access
            && after.access[p.user].expiresAt ==
               AddPeriod(start, if p.product in c.periods then c.periods[p.product] else Period(30, Days))
  {
    hide AddPeriod, Instant, IsMoment, Record;
    start := StartOf(p.paidAt, Current(w, p.user));
  }

  /** Nothing else about a payment touches access: no replay, refusal, token pack or abort. */
  lemma OnlyGrantsExtend(c: Settings, w: World, p: Verified)
    requires Valid(c, w) && IsMoment(p.paidAt)
    requires !(ApplyPayment(c, w, p).1.Journalled? && Extends(p, ApplyPayment(c, w, p).1.answer))
    ensures ApplyPayment(c, w, p).0.access == w.access
  {
    hide AddPeriod, Instant, IsMoment, Record;
  }

  // ------------------------------------------------------------------ what is credited

  /** Where access would end is within the calendar. */
  ghost predicate HasEnd(c: Settings, w: World, p: Verified)
    requires Valid(c, w) && IsMoment(p.paidAt)
  {
    exists start :: IsMoment(start) && IsStart(w, p, start) &&
      AddPeriod(start, if p.product in c.periods then c.periods[p.product] else Period(30, Days)).Some?
  }

  lemma EndsAlike(c: Settings, w: World, p: Verified)
    requires Valid(c, w) && IsMoment(p.paidAt)
    ensures Extended(c, w, p).Some? <==> HasEnd(c, w, p)
  {
    hide AddPeriod, Instant, IsMoment;
    assert IsStart(w, p, StartOf(p.paidAt, Current(w, p.user)));
  }

  /** The ledger has a row under the key of the payment. */
  predicate IsPaidFor(w: World, p: Verified) { HasKey(w.store.books.rows, p.user, GrantKey("cp-txn:" + p.id)) }

  /** CREDITED EXACTLY. A payment is credited if and only if its class is known, it was not delivered before, this
      channel sells its product for credits, its key is free, and access that it buys ends within the calendar. */
  lemma CreditedExactly(c: Settings, w: World, p: Verified)
    requires Valid(c, w) && IsMoment(p.paidAt) && Sound(w.store.books)
    ensures IsCredited(ApplyPayment(c, w, p).1) <==>
              && p.kind.Some? && !Journal.Known(w.store.payments, "cloudpayments", p.id)
              && Lookup(c.products, Some(p.product)).Some? && Lookup(c.products, Some(p.product)).value.credits > 0
              && (p.kind.value.SubscriptionEvent? || "cloudpayments" in c.products[p.product].channels)
              && !IsPaidFor(w, p)
              && (p.kind.value.Subscription? ==> HasEnd(c, w, p))
  {
    hide AddPeriod, Instant, IsMoment, HasEnd, Sound, HasKey, HasRow, Move, Net, FindPayment, Extended;
    EndsAlike(c, w, p);
    if p.kind.Some? && Lookup(c.products, Some(p.product)).Some? {
      MoveOutcomes(w.store.books, GrantTx(DeliveryOf(p), Lookup(c.products, Some(p.product)).value));
      GrantOutcomes(w.store.books, GrantTx(DeliveryOf(p), Lookup(c.products, Some(p.product)).value));
    }
  }

  lemma GrantOutcomes(b: Books, t: Tx)
    requires Sound(b) && t.kind.Credit?
    ensures (Move(b, t).1.Done? && !Move(b, t).1.replay) <==> t.amount > 0 && !HasKey(b.rows, t.user, t.key)
  {
    hide Move, Net, Sound;
    MoveOutcomes(b, t);
    if HasRow(b.rows, t) { assert HasKey(b.rows, t.user, t.key); }
  }

  /** Different payments have different keys. */
  lemma KeysOfPaymentsDiffer(a: string, b: string)
    requires "cp-txn:" + a == "cp-txn:" + b
    ensures a == b
  {
    assert ("cp-txn:" + a)[7..] == a && ("cp-txn:" + b)[7..] == b;
  }

  predicate IsCredited(r: Result) { r.Journalled? && r.answer.Recorded? && r.answer.status.Granted? }

  // ------------------------------------------------------------------ replays

  /** What a step means for the journal alone. */
  function MoneyOf(c: Settings, w: World, op: Op): Payments.Op
    requires Valid(c, w) && IsOp(op)
  {
    match op
    case Deliver(p) =>
      if ApplyPayment(c, w, p).1.Journalled? && p.kind.Some? then Pay(DeliveryOf(p)) else Payments.Aborted
    case OtherMoney(op) => op
    case _ => Payments.Aborted
  }

  lemma StepOfMoney(c: Settings, w: World, op: Op)
    requires Valid(c, w) && IsOp(op)
    ensures Step(c, w, op).store == Payments.Step(c.products, w.store, MoneyOf(c, w, op))
  {
    hide AddPeriod, Instant, IsMoment, Record;
  }

  function MoneyRun(c: Settings, w: World, ops: seq<Op>): seq<Payments.Op>
    requires Valid(c, w) && forall op :: op in ops ==> IsOp(op)
  {
    if |ops| == 0 then []
    else MoneyRun(c, w, ops[..|ops| - 1]) + [MoneyOf(c, Run(c, w, ops[..|ops| - 1]), ops[|ops| - 1])]
  }

  lemma {:induction false} RunOfMoney(c: Settings, w: World, ops: seq<Op>)
    requires Valid(c, w) && forall op :: op in ops ==> IsOp(op)
    ensures Run(c, w, ops).store == Payments.Run(c.products, w.store, MoneyRun(c, w, ops))
  {
    hide Step, Payments.Step, MoneyOf, Valid, IsOp;
    if |ops| > 0 {
      var front := ops[..|ops| - 1];
      RunOfMoney(c, w, front);
      var before := Run(c, w, front);
      StepOfMoney(c, before, ops[|ops| - 1]);
      var money := MoneyRun(c, w, ops);
      assert money[..|money| - 1] == MoneyRun(c, w, front);
    }
  }

  /** The world after a payment. */
  function After(c: Settings, w: World, p: Verified): (after: World)
    requires Valid(c, w) && IsMoment(p.paidAt)
    ensures Valid(c, after) && after == ApplyPayment(c, w, p).0
  {
    StepIsValid(c, w, Deliver(p));
    ApplyPayment(c, w, p).0
  }

  /** A payment delivered again, however much later, is known: it moves neither credits nor access. */
  lemma ReplaysNeverExtend(c: Settings, w: World, p: Verified, between: seq<Op>)
    requires Valid(c, w) && IsMoment(p.paidAt) && forall op :: op in between ==> IsOp(op)
    requires ApplyPayment(c, w, p).1.Journalled?
    ensures var later := Run(c, After(c, w, p), between);
            ApplyPayment(c, later, p) == (later, Journalled(Recorded(Replayed, 0, AtDelivery)))
  {
    hide Valid, IsMoment, IsOp, Run, Record, Extended, MoneyRun;
    var first := After(c, w, p);
    RunOfMoney(c, first, between);
    Journal.PaymentRedelivery(c.products, w.store, DeliveryOf(p), MoneyRun(c, first, between));
  }

  // ------------------------------------------------------------------ the service

  function ApplyFirst(c: Settings, w: World, ps: seq<Verified>, k: nat): (after: World)
    requires Valid(c, w) && k <= |ps| && forall p :: p in ps ==> IsMoment(p.paidAt)
    ensures Valid(c, after)
  {
    if k == 0 then w
    else
      var before := ApplyFirst(c, w, ps, k - 1);
      StepIsValid(c, before, Deliver(ps[k - 1]));
      ApplyPayment(c, before, ps[k - 1]).0
  }

  /** How many of the first `k` payments were credited. */
  function Credited(c: Settings, w: World, ps: seq<Verified>, k: nat): (n: nat)
    requires Valid(c, w) && k <= |ps| && forall p :: p in ps ==> IsMoment(p.paidAt)
    ensures n <= k
  {
    if k == 0 then 0
    else
      var r := ApplyPayment(c, ApplyFirst(c, w, ps, k - 1), ps[k - 1]).1;
      Credited(c, w, ps, k - 1) +
      if r.Journalled? && r.answer.Recorded? && r.answer.status.Granted? then 1 else 0
  }

  lemma OnePayment(c: Settings, w: World, p: Verified)
    requires Valid(c, w) && IsMoment(p.paidAt)
    ensures var (after, r) := ApplyPayment(c, w, p);
            |after.store.books.rows| == |w.store.books.rows| + if IsCredited(r) then 1 else 0
  {
    hide AddPeriod, Instant, IsMoment, FindPayment, FindTx;
  }

  /** The payments counted as credited are the rows that they added to the ledger. */
  lemma {:induction false} CreditedAreRows(c: Settings, w: World, ps: seq<Verified>, k: nat)
    requires Valid(c, w) && k <= |ps| && forall p :: p in ps ==> IsMoment(p.paidAt)
    ensures |ApplyFirst(c, w, ps, k).store.books.rows| == |w.store.books.rows| + Credited(c, w, ps, k)
  {
    hide ApplyPayment, Valid, IsMoment;
    if k > 0 {
      CreditedAreRows(c, w, ps, k - 1);
      OnePayment(c, ApplyFirst(c, w, ps, k - 1), ps[k - 1]);
    }
  }

  class CloudPaymentsService {
    const settings: Settings
    const journal: Journal.PaymentsJournal
    var access: map<nat, Access>
    var now: Moment

    ghost function State(): World
      reads this, journal, journal.wallet
    {
      World(journal.State(), access, now)
    }

    ghost predicate Ready()
      reads this
    {
      settings.products == journal.products && IsMoment(now) && ValidAccess(access) &&
      forall p :: p in settings.periods ==> IsPeriod(settings.periods[p])
    }

    constructor (settings: Settings, journal: Journal.PaymentsJournal, now: Moment)
      requires settings.products == journal.products && IsMoment(now)
      requires forall p :: p in settings.periods ==> IsPeriod(settings.periods[p])
      ensures this.settings == settings && this.journal == journal && access == map[] && this.now == now
      ensures Ready()
    {
      this.settings, this.journal, access, this.now := settings, journal, map[], now;
    }

    /** `_upsert_subscription`; `false` when the date cannot be formed, which aborts the transaction. */
    method UpsertSubscription(p: Verified) returns (done: bool)
      requires Ready() && IsMoment(p.paidAt)
      modifies this`access
      ensures Valid(settings, old(State()))
      ensures done == Extended(settings, old(State()), p).Some?
      ensures access == if done then old(access)[p.user := Extended(settings, old(State()), p).value] else old(access)
    {
      hide AddPeriod, Instant;
      var start := p.paidAt;
      if p.user in access && access[p.user].active && access[p.user].expiresAt.Some? {
        var expiry := access[p.user].expiresAt.value;
        if Instant(now) < Instant(expiry) && Instant(start) < Instant(expiry) { start := expiry; }
      }
      var period := if p.product in settings.periods then settings.periods[p.product] else Period(DEFAULT_DAYS, Days);
      var end := AddPeriod(start, period);
      if end.None? {
        return false;
      }
      access := access[p.user := Access(true, p.product, Some(end.value))];
      done := true;
    }

    /** `_apply_payment` */
    method Apply(p: Verified) returns (r: Result)
      requires Ready() && IsMoment(p.paidAt)
      modifies this`access, journal`payments, journal.wallet
      ensures Ready()
      ensures Valid(settings, old(State())) && (State(), r) == ApplyPayment(settings, old(State()), p)
    {
      hide Record, Extended, IsMoment;
      ghost var before := State();
      if p.kind.None? {
        return Skipped;
      }
      var savedPayments, savedBalances, savedRows := journal.payments, journal.wallet.balances, journal.wallet.rows;
      var answer := journal.RecordAndGrant(DeliveryOf(p));
      if answer.Raised? {
        RaisedChangesNothing(settings.products, before.store, DeliveryOf(p));
        return GivenUp;
      }
      if p.kind == Some(Subscription) && answer.status.Granted? {
        SameAccess(settings, before, State(), p);
        var done := UpsertSubscription(p);
        if !done {
          journal.payments, journal.wallet.balances, journal.wallet.rows := savedPayments, savedBalances, savedRows;
          return GivenUp;
        }
        StepIsValid(settings, before, Deliver(p));
      }
      r := Journalled(answer);
    }

    /** The loop over the verified payments: each its own transaction, in order, until one aborts. */
    method ApplyAll(ps: seq<Verified>) returns (credited: nat, replayed: nat, skipped: nat, rejected: nat, done: nat)
      requires Ready() && forall p :: p in ps ==> IsMoment(p.paidAt)
      modifies this`access, journal`payments, journal.wallet
      ensures Valid(settings, old(State())) && done <= |ps|
      ensures State() == ApplyFirst(settings, old(State()), ps, done)
      ensures done < |ps| ==> ApplyPayment(settings, State(), ps[done]) == (State(), GivenUp)
      ensures credited == Credited(settings, old(State()), ps, done)
      ensures credited + replayed + skipped + rejected <= done
    {
      hide ApplyPayment, IsMoment;
      credited, replayed, skipped, rejected, done := 0, 0, 0, 0, 0;
      while done < |ps|
        invariant done <= |ps| && Ready()
        invariant State() == ApplyFirst(settings, old(State()), ps, done)
        invariant credited == Credited(settings, old(State()), ps, done)
        invariant credited + replayed + skipped + rejected <= done
      {
        var r := Apply(ps[done]);
        match r {
          case GivenUp =>
            AbortChangesNothing(settings, ApplyFirst(settings, old(State()), ps, done), ps[done]);
            return;
          case Skipped => skipped := skipped + 1;
          case Journalled(answer) =>
            if answer.Recorded? {
              if answer.status.Granted? {
                credited := credited + 1;
              } else if answer.status.Replayed? {
                replayed := replayed + 1;
              } else if answer.status.Rejected? {
                rejected := rejected + 1;
              }
            }
        }
        done := done + 1;
      }
    }
  }

  lemma RaisedChangesNothing(products: map<string, Product>, s: Store, d: Delivery)
    requires Record(products, s, d).1.Raised?
    ensures Record(products, s, d).0 == s
  {
    hide FindPayment, Move;
  }

  lemma AbortChangesNothing(c: Settings, w: World, p: Verified)
    requires Valid(c, w) && IsMoment(p.paidAt) && ApplyPayment(c, w, p).1.GivenUp?
    ensures ApplyPayment(c, w, p).0 == w
  {
    hide Record, Extended;
  }

  lemma SameAccess(c: Settings, w: World, w2: World, p: Verified)
    requires Valid(c, w) && IsMoment(p.paidAt) && w2.access == w.access && w2.now == w.now
    ensures Valid(c, w2) && Extended(c, w2, p) == Extended(c, w, p)
  {
    hide AddPeriod, Instant, IsMoment;
  }
}
