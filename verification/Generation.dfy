/** The paid call: anchor, provider, settlement, under any interleaving of any number of calls. */
module Generation {
  import opened Strings
  import opened Wallet
  import opened Policy

  datatype Status = Running | Succeeded | Failed

  /** A row of `generations`; its position is its identity. */
  datatype Row = Row(user: nat, key: string, status: Status, charged: int, billing: BillingKind,
                     tx: Option<nat>, attempt: nat)

  datatype Result =
    | Blocked(reason: BlockReason)
    | TooManyInflight
    | AlreadyInProgress
    | UpstreamFailed
    | Aborted
    | Lost
    | Delivered(gen: nat, charged: int, replay: bool)

  /** Where one call of `run` stands between its committed transactions. */
  datatype Call =
    | AtGate(user: nat, key: string)
    | AtAnchor(user: nat, key: string, kind: BillingKind)
    | AtRetry(gen: nat, kind: BillingKind)
    | AtProvider(gen: nat, kind: BillingKind)
    | AtFail(gen: nat)
    | AtSettle(gen: nat, kind: BillingKind, credits: int)
    | Ended(result: Result)

  /** A settlement that committed. */
  datatype Settlement = Settlement(gen: nat, user: nat, billing: BillingKind, charged: int, tx: Option<nat>)

  /** The tables, the calls in flight, and the history of settlements. */
  datatype World = World(books: Books, rows: seq<Row>, trialUsed: set<nat>, calls: seq<Call>,
                         settled: seq<Settlement>)

  // ------------------------------------------------------------------ the transactions

  function FindRow(rows: seq<Row>, user: nat, key: string): (at: nat)
    ensures at <= |rows|
    ensures at < |rows| ==> rows[at].user == user && rows[at].key == key
    ensures forall i :: 0 <= i < at ==> !(rows[i].user == user && rows[i].key == key)
  {
    if |rows| == 0 then 0
    else if rows[0].user == user && rows[0].key == key then 0
    else
      var at := FindRow(rows[1..], user, key);
      assert forall i :: 1 <= i < |rows| ==> rows[i] == rows[1..][i - 1];
      at + 1
  }

  function NewRow(user: nat, key: string): Row { Row(user, key, Running, 0, NotBilled, None, 1) }

  /** `anchor`, and what the call does with a row that is already there. */
  function Anchor(rows: seq<Row>, user: nat, key: string, kind: BillingKind): (seq<Row>, Call) {
    var at := FindRow(rows, user, key);
    if at == |rows| then (rows + [NewRow(user, key)], AtProvider(at, kind))
    else match rows[at].status
      case Succeeded => (rows, Ended(Delivered(at, 0, true)))
      case Running => (rows, Ended(AlreadyInProgress))
      case Failed => (rows, AtRetry(at, kind))
  }

  /** `ck_generations_charge_only_succeeded`: no other status on a row that was charged. */
  predicate MayLeaveSucceeded(r: Row) { r.charged == 0 }

  function Reopen(r: Row): Option<Row> {
    if MayLeaveSucceeded(r) then Some(r.(status := Running, attempt := r.attempt + 1)) else None
  }

  function FailRow(r: Row): Option<Row> {
    if MayLeaveSucceeded(r) then Some(r.(status := Failed)) else None
  }

  function DebitOf(gen: nat, user: nat, credits: int): Tx {
    Tx(user, Debit, credits, GenerationKey(gen), ForGeneration)
  }

  /** `_settle`: the books, the trial flags, and how the generation was paid; `None` is an abort. */
  function Settle(w: World, gen: nat, user: nat, kind: BillingKind, credits: int)
    : (Books, set<nat>, Option<Settlement>)
  {
    if kind.ByTrial? && user !in w.trialUsed then
      (w.books, w.trialUsed + {user}, Some(Settlement(gen, user, ByTrial, 0, None)))
    else if credits <= 0 then (w.books, w.trialUsed, Some(Settlement(gen, user, Unbilled, 0, None)))
    else
      var (books, r) := Move(w.books, DebitOf(gen, user, credits));
      if r.Done? then (books, w.trialUsed, Some(Settlement(gen, user, ByCredits, credits, Some(r.tx))))
      else if r.Insufficient? then (w.books, w.trialUsed, Some(Settlement(gen, user, Unbilled, 0, None)))
      else (w.books, w.trialUsed, None)
  }

  function Finalize(r: Row, s: Settlement): Row {
    r.(status := Succeeded, charged := s.charged, billing := s.billing, tx := s.tx)
  }

  // ------------------------------------------------------------------ the actions

  datatype Action =
    | Start(user: nat, key: string)
    | PassGate(call: nat, subscription: SubscriptionStatus, estimate: int, verdicts: seq<Option<Decision>>)
    | RefuseInflight(call: nat)
    | TakeAnchor(call: nat)
    | RetryAnchor(call: nat)
    | ProviderDelivers(call: nat, credits: int)
    | ProviderFails(call: nat)
    | RecordFailure(call: nat)
    | SettleAndFinalize(call: nat)
    | Die(call: nat)
    | RecoverOrphan(gen: nat)
    | OtherMovement(t: Tx)

  predicate IsAt(w: World, call: nat, a: Action) {
    call < |w.calls| &&
    match a
    case PassGate(_, _, _, _) => w.calls[call].AtGate?
    case RefuseInflight(_) => w.calls[call].AtAnchor?
    case TakeAnchor(_) => w.calls[call].AtAnchor?
    case RetryAnchor(_) => w.calls[call].AtRetry? && w.calls[call].gen < |w.rows|
    case ProviderDelivers(_, _) => w.calls[call].AtProvider?
    case ProviderFails(_) => w.calls[call].AtProvider?
    case RecordFailure(_) => w.calls[call].AtFail? && w.calls[call].gen < |w.rows|
    case SettleAndFinalize(_) => w.calls[call].AtSettle? && w.calls[call].gen < |w.rows|
    case Die(_) => true
    case _ => false
  }

  predicate Enabled(w: World, a: Action) {
    match a
    case Start(_, _) => true
    case RecoverOrphan(gen) => gen < |w.rows|
    case OtherMovement(t) => !t.key.GenerationKey?
    case _ => IsAt(w, a.call, a)
  }

  function GoTo(w: World, call: nat, next: Call): World
    requires call < |w.calls|
  {
    w.(calls := w.calls[call := next])
  }

  /** The row after an update that a CHECK may refuse; a refusal ends the call. */
  function Put(w: World, call: nat, gen: nat, row: Option<Row>, next: Call): World
    requires call < |w.calls| && gen < |w.rows|
  {
    if row.Some? then GoTo(w.(rows := w.rows[gen := row.value]), call, next)
    else GoTo(w, call, Ended(Aborted))
  }

  function GateStep(w: World, a: Action): World
    requires a.PassGate? && IsAt(w, a.call, a)
  {
    var c := w.calls[a.call];
    var s := PolicyState(a.subscription, c.user in w.trialUsed, Balance(w.books, c.user));
    var d := Decide(s, a.estimate, a.verdicts);
    GoTo(w, a.call, if d.Allow? then AtAnchor(c.user, c.key, d.kind) else Ended(Blocked(d.reason)))
  }

  function AnchorStep(w: World, a: Action): World
    requires a.TakeAnchor? && IsAt(w, a.call, a)
  {
    var c := w.calls[a.call];
    var (rows, next) := Anchor(w.rows, c.user, c.key, c.kind);
    GoTo(w.(rows := rows), a.call, next)
  }

  function SettleStep(w: World, a: Action): World
    requires a.SettleAndFinalize? && IsAt(w, a.call, a)
  {
    var c := w.calls[a.call];
    var (books, trialUsed, s) := Settle(w, c.gen, w.rows[c.gen].user, c.kind, c.credits);
    if s.None? then GoTo(w, a.call, Ended(Aborted))
    else
      GoTo(World(books, w.rows[c.gen := Finalize(w.rows[c.gen], s.value)], trialUsed, w.calls,
                 w.settled + [s.value]),
           a.call, Ended(Delivered(c.gen, s.value.charged, false)))
  }

  function Apply(w: World, a: Action): World
    requires Enabled(w, a)
  {
    match a
    case Start(user, key) => w.(calls := w.calls + [AtGate(user, key)])
    case PassGate(_, _, _, _) => GateStep(w, a)
    case RefuseInflight(call) => GoTo(w, call, Ended(TooManyInflight))
    case TakeAnchor(_) => AnchorStep(w, a)
    case RetryAnchor(call) =>
      var c := w.calls[call];
      Put(w, call, c.gen, Reopen(w.rows[c.gen]), AtProvider(c.gen, c.kind))
    case ProviderDelivers(call, credits) =>
      GoTo(w, call, AtSettle(w.calls[call].gen, w.calls[call].kind, credits))
    case ProviderFails(call) => GoTo(w, call, AtFail(w.calls[call].gen))
    case RecordFailure(call) =>
      var c := w.calls[call];
      Put(w, call, c.gen, FailRow(w.rows[c.gen]), Ended(UpstreamFailed))
    case SettleAndFinalize(_) => SettleStep(w, a)
    case Die(call) => GoTo(w, call, Ended(Lost))
    case RecoverOrphan(gen) =>
      var row := FailRow(w.rows[gen]);
      if row.Some? then w.(rows := w.rows[gen := row.value]) else w
    case OtherMovement(t) => w.(books := Move(w.books, t).0)
  }

  /** A run: any actions whatsoever; those not enabled do not happen. */
  function Run(w: World, actions: seq<Action>): World {
    if |actions| == 0 then w
    else
      var before := Run(w, actions[..|actions| - 1]);
      var a := actions[|actions| - 1];
      if Enabled(before, a) then Apply(before, a) else before
  }

  // ------------------------------------------------------------------ what every state keeps

  ghost predicate OneRowPerKey(rows: seq<Row>) {
    forall i, j :: 0 <= i < j < |rows| && rows[i].user == rows[j].user ==> rows[i].key != rows[j].key
  }

  predicate IsDebitOf(books: Books, at: nat, gen: nat, user: nat, credits: int) {
    at < |books.rows| && IsRow(books.rows[at], DebitOf(gen, user, credits))
  }

  /** Charged rows succeeded, and name the debit of exactly what they were charged. */
  predicate IsPaid(books: Books, gen: nat, r: Row) {
    r.charged >= 0 &&
    (r.charged > 0 ==> r.status.Succeeded? && r.tx.Some? && IsDebitOf(books, r.tx.value, gen, r.user, r.charged))
  }

  ghost predicate AllPaid(books: Books, rows: seq<Row>) {
    forall i :: 0 <= i < |rows| ==> IsPaid(books, i, rows[i])
  }

  predicate IsTrueRecord(books: Books, rows: seq<Row>, trialUsed: set<nat>, s: Settlement) {
    && s.gen < |rows| && s.user == rows[s.gen].user
    && (s.charged > 0 <==> s.billing.ByCredits?) && s.charged >= 0
    && (s.billing.ByCredits? ==> s.tx.Some? && IsDebitOf(books, s.tx.value, s.gen, s.user, s.charged))
    && (s.billing.ByTrial? ==> s.user in trialUsed)
  }

  ghost predicate TrueHistory(books: Books, rows: seq<Row>, trialUsed: set<nat>, settled: seq<Settlement>) {
    forall k :: 0 <= k < |settled| ==> IsTrueRecord(books, rows, trialUsed, settled[k])
  }

  ghost predicate OneTrialEach(settled: seq<Settlement>) {
    forall j, k :: 0 <= j < k < |settled| && settled[j].billing.ByTrial? && settled[k].billing.ByTrial? ==>
      settled[j].user != settled[k].user
  }

  ghost predicate Settles(settled: seq<Settlement>, gen: nat, at: nat) {
    exists k :: 0 <= k < |settled| && settled[k].gen == gen && settled[k].tx == Some(at) && settled[k].charged > 0
  }

  /** A generation's debit is of its user, and a committed settlement wrote it. */
  ghost predicate DebitIsSettled(rows: seq<Row>, settled: seq<Settlement>, at: nat, t: Tx) {
    t.key.GenerationKey? ==>
      t.key.id < |rows| && t.user == rows[t.key.id].user && t.kind.Debit? && Settles(settled, t.key.id, at)
  }

  ghost predicate DebitsAreSettled(books: Books, rows: seq<Row>, settled: seq<Settlement>) {
    forall at :: 0 <= at < |books.rows| ==> DebitIsSettled(rows, settled, at, books.rows[at])
  }

  predicate PointsAtRow(rows: seq<Row>, c: Call) {
    (c.AtRetry? || c.AtProvider? || c.AtFail? || c.AtSettle?) ==> c.gen < |rows|
  }

  ghost predicate CallsPoint(rows: seq<Row>, calls: seq<Call>) {
    forall k :: 0 <= k < |calls| ==> PointsAtRow(rows, calls[k])
  }

  ghost predicate Inv(w: World) {
    && Sound(w.books) && OneRowPerKey(w.rows) && AllPaid(w.books, w.rows)
    && TrueHistory(w.books, w.rows, w.trialUsed, w.settled) && OneTrialEach(w.settled)
    && DebitsAreSettled(w.books, w.rows, w.settled) && CallsPoint(w.rows, w.calls)
  }

  /** Nothing generated yet; the wallets may hold anything. */
  ghost predicate Initial(w: World) {
    && Sound(w.books) && |w.rows| == 0 && |w.calls| == 0 && |w.settled| == 0
    && forall at :: 0 <= at < |w.books.rows| ==> !w.books.rows[at].key.GenerationKey?
  }

  // ------------------------------------------------------------------ each kind of change keeps it

  lemma GoToKeeps(w: World, call: nat, next: Call)
    requires Inv(w) && call < |w.calls| && PointsAtRow(w.rows, next)
    ensures Inv(GoTo(w, call, next))
  {
    hide Sound, OneRowPerKey, AllPaid, TrueHistory, OneTrialEach, DebitsAreSettled;
    hide PointsAtRow;
  }

  ghost predicate SameOwners(rows: seq<Row>, more: seq<Row>) {
    |rows| <= |more| && forall i :: 0 <= i < |rows| ==> more[i].user == rows[i].user && more[i].key == rows[i].key
  }

  lemma HistoryStays(b: Books, rows: seq<Row>, trials: set<nat>, settled: seq<Settlement>,
                     b2: Books, rows2: seq<Row>, trials2: set<nat>)
    requires TrueHistory(b, rows, trials, settled)
    requires b.rows <= b2.rows && SameOwners(rows, rows2) && trials <= trials2
    ensures TrueHistory(b2, rows2, trials2, settled)
  {
    forall k | 0 <= k < |settled| ensures IsTrueRecord(b2, rows2, trials2, settled[k]) {
      assert IsTrueRecord(b, rows, trials, settled[k]);
    }
  }

  lemma DebitsStay(b: Books, rows: seq<Row>, settled: seq<Settlement>, rows2: seq<Row>, settled2: seq<Settlement>)
    requires DebitsAreSettled(b, rows, settled) && SameOwners(rows, rows2) && settled <= settled2
    ensures DebitsAreSettled(b, rows2, settled2)
  {
    forall at | 0 <= at < |b.rows| ensures DebitIsSettled(rows2, settled2, at, b.rows[at]) {
      var t := b.rows[at];
      assert DebitIsSettled(rows, settled, at, t);
      if t.key.GenerationKey? {
        var k :| 0 <= k < |settled| && settled[k].gen == t.key.id && settled[k].tx == Some(at) && settled[k].charged > 0;
        assert settled2[k] == settled[k];
      }
    }
  }

  lemma DebitsAppend(b: Books, rows: seq<Row>, settled: seq<Settlement>, b2: Books, t: Tx)
    requires DebitsAreSettled(b, rows, settled) && b2.rows == b.rows + [t]
    requires DebitIsSettled(rows, settled, |b.rows|, t)
    ensures DebitsAreSettled(b2, rows, settled)
  {
    hide DebitIsSettled;
    forall at | 0 <= at < |b2.rows| ensures DebitIsSettled(rows, settled, at, b2.rows[at]) {
      if at < |b.rows| { assert b2.rows[at] == b.rows[at]; }
    }
  }

  lemma PaidStays(b: Books, rows: seq<Row>, b2: Books)
    requires AllPaid(b, rows) && b.rows <= b2.rows
    ensures AllPaid(b2, rows)
  {
    forall i | 0 <= i < |rows| ensures IsPaid(b2, i, rows[i]) {
      assert IsPaid(b, i, rows[i]);
    }
  }

  lemma RowUpdateKeeps(w: World, gen: nat, r: Row)
    requires Inv(w) && gen < |w.rows| && r.user == w.rows[gen].user && r.key == w.rows[gen].key
    requires IsPaid(w.books, gen, r)
    ensures Inv(w.(rows := w.rows[gen := r]))
  {
    hide Sound, TrueHistory, OneTrialEach, DebitsAreSettled, IsPaid;
    var rows := w.rows[gen := r];
    HistoryStays(w.books, w.rows, w.trialUsed, w.settled, w.books, rows, w.trialUsed);
    DebitsStay(w.books, w.rows, w.settled, rows, w.settled);
  }

  lemma InsertKeeps(w: World, user: nat, key: string)
    requires Inv(w) && FindRow(w.rows, user, key) == |w.rows|
    ensures Inv(w.(rows := w.rows + [NewRow(user, key)]))
  {
    hide Sound, TrueHistory, OneTrialEach, DebitsAreSettled;
    var rows := w.rows + [NewRow(user, key)];
    HistoryStays(w.books, w.rows, w.trialUsed, w.settled, w.books, rows, w.trialUsed);
    DebitsStay(w.books, w.rows, w.settled, rows, w.settled);
  }

  /** The books and the history after a settlement, before the row is finalized. */
  function Settled(w: World, gen: nat, kind: BillingKind, credits: int): World
    requires gen < |w.rows| && Settle(w, gen, w.rows[gen].user, kind, credits).2.Some?
  {
    var (books, trialUsed, s) := Settle(w, gen, w.rows[gen].user, kind, credits);
    w.(books := books, trialUsed := trialUsed, settled := w.settled + [s.value])
  }

  lemma SettleIsRecorded(w: World, gen: nat, kind: BillingKind, credits: int)
    requires Inv(w) && gen < |w.rows| && Settle(w, gen, w.rows[gen].user, kind, credits).2.Some?
    ensures var after := Settled(w, gen, kind, credits);
            var s := Settle(w, gen, w.rows[gen].user, kind, credits).2.value;
            && w.books.rows <= after.books.rows && w.trialUsed <= after.trialUsed && Sound(after.books)
            && IsTrueRecord(after.books, w.rows, after.trialUsed, s)
            && (s.billing.ByTrial? ==> s.user !in w.trialUsed)
            && (after.books.rows == w.books.rows ||
                (after.books.rows == w.books.rows + [DebitOf(gen, s.user, credits)]
                 && s.charged == credits > 0 && s.tx == Some(|w.books.rows|) && s.gen == gen))
  {
    hide OneRowPerKey, AllPaid, TrueHistory, OneTrialEach, DebitsAreSettled, CallsPoint, Balanced, Positive;
    var t := DebitOf(gen, w.rows[gen].user, credits);
    MoveKeepsSound(w.books, t);
    MoveEffect(w.books, t, t.user);
  }

  lemma NewTrialIsOne(w: World, s: Settlement)
    requires TrueHistory(w.books, w.rows, w.trialUsed, w.settled) && OneTrialEach(w.settled)
    requires s.billing.ByTrial? ==> s.user !in w.trialUsed
    ensures OneTrialEach(w.settled + [s])
  {
    var all := w.settled + [s];
    forall j, k | 0 <= j < k < |all| && all[j].billing.ByTrial? && all[k].billing.ByTrial?
      ensures all[j].user != all[k].user
    {
      assert IsTrueRecord(w.books, w.rows, w.trialUsed, w.settled[j]);
    }
  }

  lemma SettledKeeps(w: World, gen: nat, kind: BillingKind, credits: int)
    requires Inv(w) && gen < |w.rows| && Settle(w, gen, w.rows[gen].user, kind, credits).2.Some?
    ensures Inv(Settled(w, gen, kind, credits))
  {
    hide Sound, OneRowPerKey, AllPaid, TrueHistory, OneTrialEach, DebitsAreSettled, CallsPoint, Settle, IsTrueRecord;
    var after := Settled(w, gen, kind, credits);
    var s := Settle(w, gen, w.rows[gen].user, kind, credits).2.value;
    SettleIsRecorded(w, gen, kind, credits);
    PaidStays(w.books, w.rows, after.books);
    HistoryStays(w.books, w.rows, w.trialUsed, w.settled, after.books, w.rows, after.trialUsed);
    HistoryAppend(after, w.settled, s);
    NewTrialIsOne(w, s);
    DebitsStay(w.books, w.rows, w.settled, w.rows, after.settled);
    if after.books.rows != w.books.rows {
      var t := DebitOf(gen, s.user, credits);
      LastSettles(w.settled, s, gen, |w.books.rows|);
      assert DebitIsSettled(w.rows, after.settled, |w.books.rows|, t) by { RecordOwner(after, s); }
      DebitsAppend(w.books, w.rows, after.settled, after.books, t);
    } else {
      SameDebits(w.books, w.rows, after.settled, after.books);
    }
  }

  lemma SameDebits(b: Books, rows: seq<Row>, settled: seq<Settlement>, b2: Books)
    requires DebitsAreSettled(b, rows, settled) && b2.rows == b.rows
    ensures DebitsAreSettled(b2, rows, settled)
  {}

  lemma RecordOwner(w: World, s: Settlement)
    requires IsTrueRecord(w.books, w.rows, w.trialUsed, s)
    ensures s.gen < |w.rows| && s.user == w.rows[s.gen].user
  {}

  lemma LastSettles(settled: seq<Settlement>, s: Settlement, gen: nat, at: nat)
    requires s.gen == gen && s.tx == Some(at) && s.charged > 0
    ensures Settles(settled + [s], gen, at)
  {
    assert (settled + [s])[|settled|] == s;
  }

  lemma HistoryAppend(w: World, settled: seq<Settlement>, s: Settlement)
    requires TrueHistory(w.books, w.rows, w.trialUsed, settled) && IsTrueRecord(w.books, w.rows, w.trialUsed, s)
    ensures TrueHistory(w.books, w.rows, w.trialUsed, settled + [s])
  {
    hide IsTrueRecord;
  }

  lemma SettleStepKeeps(w: World, a: Action)
    requires Inv(w) && a.SettleAndFinalize? && IsAt(w, a.call, a)
    ensures Inv(SettleStep(w, a))
  {
    var c := w.calls[a.call];
    hide Inv, Settle;
    var s := Settle(w, c.gen, w.rows[c.gen].user, c.kind, c.credits).2;
    if s.Some? {
      SettleIsRecorded(w, c.gen, c.kind, c.credits) by { hide *; }
      SettledKeeps(w, c.gen, c.kind, c.credits);
      var middle := Settled(w, c.gen, c.kind, c.credits);
      FinalizedIsPaid(w, c.gen, c.kind, c.credits);
      RowUpdateKeeps(middle, c.gen, Finalize(w.rows[c.gen], s.value));
      GoToKeeps(middle.(rows := w.rows[c.gen := Finalize(w.rows[c.gen], s.value)]), a.call,
                Ended(Delivered(c.gen, s.value.charged, false)));
    } else {
      GoToKeeps(w, a.call, Ended(Aborted));
    }
  }

  lemma FinalizedIsPaid(w: World, gen: nat, kind: BillingKind, credits: int)
    requires Inv(w) && gen < |w.rows| && Settle(w, gen, w.rows[gen].user, kind, credits).2.Some?
    ensures var s := Settle(w, gen, w.rows[gen].user, kind, credits).2.value;
            IsPaid(Settled(w, gen, kind, credits).books, gen, Finalize(w.rows[gen], s))
    ensures Settle(w, gen, w.rows[gen].user, kind, credits).2.value.gen == gen
  {
    hide Inv, Move;
    SettleIsRecorded(w, gen, kind, credits);
  }

  lemma OtherKeeps(w: World, t: Tx)
    requires Inv(w) && !t.key.GenerationKey?
    ensures Inv(w.(books := Move(w.books, t).0))
  {
    hide Sound, OneRowPerKey, AllPaid, TrueHistory, OneTrialEach, DebitsAreSettled, CallsPoint, Move;
    var after := Move(w.books, t).0;
    MoveKeepsSound(w.books, t);
    MoveEffect(w.books, t, t.user);
    PaidStays(w.books, w.rows, after);
    HistoryStays(w.books, w.rows, w.trialUsed, w.settled, after, w.rows, w.trialUsed);
    if after.rows != w.books.rows {
      DebitsAppend(w.books, w.rows, w.settled, after, t);
    } else {
      SameDebits(w.books, w.rows, w.settled, after);
    }
  }

  lemma PutKeeps(w: World, call: nat, gen: nat, row: Option<Row>, next: Call)
    requires Inv(w) && call < |w.calls| && gen < |w.rows| && PointsAtRow(w.rows, next)
    requires row.Some? ==>
               row.value.user == w.rows[gen].user && row.value.key == w.rows[gen].key && IsPaid(w.books, gen, row.value)
    ensures Inv(Put(w, call, gen, row, next))
  {
    hide Inv;
    if row.Some? {
      RowUpdateKeeps(w, gen, row.value);
      GoToKeeps(w.(rows := w.rows[gen := row.value]), call, next);
    } else {
      GoToKeeps(w, call, Ended(Aborted));
    }
  }

  lemma AnchorStepKeeps(w: World, a: Action)
    requires Inv(w) && a.TakeAnchor? && IsAt(w, a.call, a)
    ensures Inv(AnchorStep(w, a))
  {
    hide Inv;
    var c := w.calls[a.call];
    var (rows, next) := Anchor(w.rows, c.user, c.key, c.kind);
    if FindRow(w.rows, c.user, c.key) == |w.rows| {
      InsertKeeps(w, c.user, c.key);
    }
    GoToKeeps(w.(rows := rows), a.call, next);
  }

  lemma CallPoints(w: World, call: nat)
    requires Inv(w) && call < |w.calls|
    ensures PointsAtRow(w.rows, w.calls[call])
  {
    hide Sound, OneRowPerKey, AllPaid, TrueHistory, OneTrialEach, DebitsAreSettled, PointsAtRow;
  }

  lemma ApplyKeeps(w: World, a: Action)
    requires Inv(w) && Enabled(w, a)
    ensures Inv(Apply(w, a))
  {
    hide Inv, AnchorStep, SettleStep, Move;
    match a
    case Start(user, key) => StartKeeps(w, AtGate(user, key));
    case PassGate(call, _, _, _) =>
      hide Decide;
      var c := w.calls[call];
      GoToKeeps(w, call, GateStep(w, a).calls[call]);
    case RefuseInflight(call) => GoToKeeps(w, call, Ended(TooManyInflight));
    case TakeAnchor(_) => AnchorStepKeeps(w, a);
    case RetryAnchor(call) =>
      var gen, kind := w.calls[call].gen, w.calls[call].kind;
      PutKeeps(w, call, gen, Reopen(w.rows[gen]), AtProvider(gen, kind));
    case ProviderDelivers(call, credits) =>
      CallPoints(w, call);
      GoToKeeps(w, call, AtSettle(w.calls[call].gen, w.calls[call].kind, credits));
    case ProviderFails(call) =>
      CallPoints(w, call);
      GoToKeeps(w, call, AtFail(w.calls[call].gen));
    case RecordFailure(call) =>
      PutKeeps(w, call, w.calls[call].gen, FailRow(w.rows[w.calls[call].gen]), Ended(UpstreamFailed));
    case SettleAndFinalize(_) => SettleStepKeeps(w, a);
    case Die(call) => GoToKeeps(w, call, Ended(Lost));
    case RecoverOrphan(gen) =>
      if FailRow(w.rows[gen]).Some? { RowUpdateKeeps(w, gen, FailRow(w.rows[gen]).value); }
    case OtherMovement(t) => OtherKeeps(w, t);
  }

  lemma StartKeeps(w: World, c: Call)
    requires Inv(w) && PointsAtRow(w.rows, c)
    ensures Inv(w.(calls := w.calls + [c]))
  {
    hide Sound, OneRowPerKey, AllPaid, TrueHistory, OneTrialEach, DebitsAreSettled, PointsAtRow;
  }

  lemma {:induction false} EveryRunKeeps(w: World, actions: seq<Action>)
    requires Initial(w)
    ensures Inv(Run(w, actions))
  {
    if |actions| == 0 {
      hide Sound;
    } else {
      hide Inv, Apply, Enabled, Initial;
      EveryRunKeeps(w, actions[..|actions| - 1]);
      var before := Run(w, actions[..|actions| - 1]);
      if Enabled(before, actions[|actions| - 1]) { ApplyKeeps(before, actions[|actions| - 1]); }
    }
  }
}
