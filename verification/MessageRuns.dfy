/** A message among all other calls: its promises, said of the ledger. */
module MessageRuns {
  import opened Strings
  import opened Wallet
  import opened Policy
  import opened Refinement
  import opened MessageLedger
  import G = Generation
  import P = PaidCalls
  import L = Lifecycle

  // ------------------------------------------------------------------ the message's steps

  predicate Touches(s: L.State, a: L.Action) {
    s.job.Held? &&
    match a
    case RunGate(gate) => s.job.at.Asking? && gate.Allowed?
    case RecoverOrphan(stale) => s.job.at.Refused? && stale
    case ProviderReturns(ok) => s.job.at.Providing? && !ok
    case Settle(_) => s.job.at.Settling?
    case _ => false
  }

  lemma OtherStepsAreFree(s: L.State, a: L.Action, maxAttempts: nat)
    requires !Touches(s, a)
    ensures L.Step(s, a, maxAttempts).anchors == s.anchors && L.Step(s, a, maxAttempts).debits == s.debits
  {}

  lemma FreeInTables(w: G.World, s: L.State, m: Message, a: L.Action, t: Terms)
    requires !Touches(s, a)
    ensures TableStep(w, s, m, a, t) == (w, a)
  {
    hide RowOf, SettleIn, FailIn, AnchorIn;
  }

  lemma MessageStepAgrees(w: G.World, s: L.State, m: Message, a: L.Action, t: Terms, maxAttempts: nat, n: nat)
    requires G.Inv(w) && L.WellFormed(s) && Related(w, s, m)
    ensures var (w2, a2) := TableStep(w, s, m, a, t); Agrees(w2, L.Step(s, a2, maxAttempts), m, n)
  {
    hide G.Inv, L.WellFormed, Related, Agrees, L.AskGate, L.SettleRun, SettleIn, FailIn, AnchorIn, RowOf, PaymentOf;
    if Touches(s, a) {
      L.PointOf(s);
      var k := s.job.at.attempt;
      match a
      case RunGate(gate) => GateAgrees(w, s, m, k, t.kind, gate.truncated, n);
      case RecoverOrphan(_) => FailureAgrees(w, s, L.Step(s, a, maxAttempts), m, k, n);
      case ProviderReturns(_) => FailureAgrees(w, s, L.Step(s, a, maxAttempts), m, k, n);
      case Settle(_) =>
        AgreesAt(w, s, m, k);
        RunningRow(w, s, m, k);
        SettlementAgrees(w, s, m, k, t, n);
    } else {
      FreeInTables(w, s, m, a, t);
      hide L.Step, TableStep, Touches;
      OtherStepsAreFree(s, a, maxAttempts);
      AgreesAt(w, s, m, n);
      AgreesAgain(w, w, s, L.Step(s, a, maxAttempts), m, n);
    }
  }

  lemma TableStepIsSound(w: G.World, s: L.State, m: Message, a: L.Action, t: Terms)
    requires G.Inv(w) && L.WellFormed(s) && Related(w, s, m)
    ensures G.Inv(TableStep(w, s, m, a, t).0)
  {
    hide G.Inv, L.WellFormed, Related, SettleIn, FailIn, AnchorIn, RowOf;
    if Touches(s, a) {
      L.PointOf(s);
      var k := s.job.at.attempt;
      AgreesAt(w, s, m, k);
      match a
      case RunGate(gate) => AnchorInIsSound(w, m, k, t.kind);
      case RecoverOrphan(_) => FailInIsSound(w, RowOf(w, m, k));
      case ProviderReturns(_) => FailInIsSound(w, RowOf(w, m, k));
      case Settle(_) =>
        RunningRow(w, s, m, k) by { hide *; }
        SettleInIsSound(w, RowOf(w, m, k), t);
    }
  }

  lemma AnchorInIsSound(w: G.World, m: Message, k: nat, kind: BillingKind)
    requires G.Inv(w)
    ensures G.Inv(AnchorIn(w, m, k, kind))
  {
    hide G.Inv, KeyOf, G.FindRow;
    var at := RowOf(w, m, k);
    if at == |w.rows| {
      G.InsertKeeps(w, m.user, KeyOf(m, k));
    } else if w.rows[at].status.Failed? && G.Reopen(w.rows[at]).Some? {
      G.RowUpdateKeeps(w, at, G.Reopen(w.rows[at]).value);
    }
  }

  lemma FailInIsSound(w: G.World, at: nat)
    requires G.Inv(w)
    ensures G.Inv(FailIn(w, at))
  {
    hide G.Inv;
    if at < |w.rows| && G.FailRow(w.rows[at]).Some? { G.RowUpdateKeeps(w, at, G.FailRow(w.rows[at]).value); }
  }

  lemma SettleInIsSound(w: G.World, gen: nat, t: Terms)
    requires G.Inv(w) && gen < |w.rows|
    ensures G.Inv(SettleIn(w, gen, t))
  {
    hide G.Inv, G.Settle;
    var s := SettlementOf(w, gen, t);
    if s.Some? {
      G.SettledKeeps(w, gen, t.kind, t.credits);
      G.FinalizedIsPaid(w, gen, t.kind, t.credits);
      G.RowUpdateKeeps(G.Settled(w, gen, t.kind, t.credits), gen, G.Finalize(w.rows[gen], s.value));
    }
  }

  // ------------------------------------------------------------------ everyone else's steps

  ghost predicate IsRowOf(w: G.World, m: Message, at: nat) {
    at < |w.rows| && IsOf(m, w.rows[at].user, w.rows[at].key)
  }

  /** A transaction of another request: any user, any key but the message's. */
  ghost predicate IsApart(w: G.World, m: Message, a: G.Action)
    requires G.Enabled(w, a)
  {
    match a
    case TakeAnchor(call) => !IsOf(m, w.calls[call].user, w.calls[call].key)
    case RetryAnchor(call) => !IsRowOf(w, m, w.calls[call].gen)
    case RecordFailure(call) => !IsRowOf(w, m, w.calls[call].gen)
    case SettleAndFinalize(call) => !IsRowOf(w, m, w.calls[call].gen)
    case RecoverOrphan(gen) => !IsRowOf(w, m, gen)
    case _ => true
  }

  lemma OwnRow(w: G.World, m: Message, n: nat, at: nat)
    requires at < |w.rows| && !IsRowOf(w, m, at)
    ensures at != RowOf(w, m, n)
  {}

  lemma OtherKeyOf(m: Message, user: nat, key: string, n: nat)
    requires !IsOf(m, user, key)
    ensures !(user == m.user && key == KeyOf(m, n))
  {}

  /** One row of another request changes, nothing in the ledger. */
  lemma RowStepLeaves(w: G.World, w2: G.World, m: Message, at: nat, row: Option<G.Row>, n: nat)
    requires at < |w.rows| && !IsRowOf(w, m, at) && w2.books == w.books
    requires row.Some? ==> row.value.user == w.rows[at].user && row.value.key == w.rows[at].key
    requires w2.rows == if row.Some? then w.rows[at := row.value] else w.rows
    ensures LeavesAlone(w, w2, m, n)
  {
    hide LeavesAlone, RowOf, IsRowOf;
    OwnRow(w, m, n, at);
    if row.Some? { UpdateLeaves(w, w2, m, n, at, row.value); } else { SameRowsLeave(w, w2, m, n); }
  }

  lemma AnchorStepLeaves(w: G.World, m: Message, a: G.Action, n: nat)
    requires a.TakeAnchor? && G.Enabled(w, a) && !IsOf(m, w.calls[a.call].user, w.calls[a.call].key)
    ensures LeavesAlone(w, G.AnchorStep(w, a), m, n)
  {
    hide LeavesAlone, RowOf, IsOf, G.FindRow;
    var c := w.calls[a.call];
    var w2 := G.AnchorStep(w, a);
    if G.FindRow(w.rows, c.user, c.key) == |w.rows| {
      OtherKeyOf(m, c.user, c.key, n);
      InsertLeaves(w, w2, m, n, G.NewRow(c.user, c.key));
    } else {
      SameRowsLeave(w, w2, m, n);
    }
  }

  lemma SettleStepLeaves(w: G.World, m: Message, a: G.Action, n: nat)
    requires G.Inv(w) && a.SettleAndFinalize? && G.Enabled(w, a) && !IsRowOf(w, m, w.calls[a.call].gen)
    ensures LeavesAlone(w, G.SettleStep(w, a), m, n)
  {
    hide LeavesAlone, RowOf, IsRowOf, G.Inv, G.Settle, LedgerLeaves;
    var c := w.calls[a.call];
    var w2 := G.SettleStep(w, a);
    OwnRow(w, m, n, c.gen);
    SettleInTables(w, c.gen, Terms(c.kind, c.credits));
    SettleStepTables(w, a);
    var r := SettlementOf(w, c.gen, Terms(c.kind, c.credits));
    if r.Some? {
      UpdateLeaves(w, w2, m, n, c.gen, G.Finalize(w.rows[c.gen], r.value));
    } else {
      SameRowsLeave(w, w2, m, n);
    }
  }

  /** The transaction of a call is the transaction of a message, but for the call itself. */
  lemma SettleStepTables(w: G.World, a: G.Action)
    requires a.SettleAndFinalize? && G.Enabled(w, a)
    ensures var c := w.calls[a.call];
            var w2, w3 := G.SettleStep(w, a), SettleIn(w, c.gen, Terms(c.kind, c.credits));
            w2.rows == w3.rows && w2.books == w3.books && w2.trialUsed == w3.trialUsed && w2.settled == w3.settled
  {
    hide G.Settle;
  }

  lemma MovementLeaves(w: G.World, m: Message, t: Tx, n: nat)
    requires !t.key.GenerationKey?
    ensures LeavesAlone(w, w.(books := Move(w.books, t).0), m, n)
  {
    hide LeavesAlone, RowOf, Move;
    MoveEffect(w.books, t, t.user);
    SameRowsLeave(w, w.(books := Move(w.books, t).0), m, n);
  }

  lemma ElsewhereLeaves(w: G.World, m: Message, a: G.Action, n: nat)
    requires G.Inv(w) && G.Enabled(w, a) && IsApart(w, m, a)
    ensures LeavesAlone(w, G.Apply(w, a), m, n)
  {
    hide G.Inv, LeavesAlone, RowOf, IsRowOf, IsOf, Move, Decide, G.Settle, G.AnchorStep, G.SettleStep, LedgerLeaves;
    match a
    case TakeAnchor(_) => AnchorStepLeaves(w, m, a, n);
    case RetryAnchor(call) =>
      RowStepLeaves(w, G.Apply(w, a), m, w.calls[call].gen, G.Reopen(w.rows[w.calls[call].gen]), n);
    case RecordFailure(call) =>
      RowStepLeaves(w, G.Apply(w, a), m, w.calls[call].gen, G.FailRow(w.rows[w.calls[call].gen]), n);
    case RecoverOrphan(gen) => RowStepLeaves(w, G.Apply(w, a), m, gen, G.FailRow(w.rows[gen]), n);
    case SettleAndFinalize(_) => SettleStepLeaves(w, m, a, n);
    case OtherMovement(t) => MovementLeaves(w, m, t, n);
    case _ =>
      SameTables(w, G.Apply(w, a), m, n);
  }

  lemma SameTables(w: G.World, w2: G.World, m: Message, n: nat)
    requires w2.rows == w.rows && w2.books == w.books
    ensures LeavesAlone(w, w2, m, n)
  {
    hide LeavesAlone, RowOf;
    SameRowsLeave(w, w2, m, n);
  }

  // ------------------------------------------------------------------ runs of all together

  datatype Joint = Joint(w: G.World, s: L.State)

  datatype JointAction = OfMessage(a: L.Action, terms: Terms) | Elsewhere(other: G.Action)

  ghost function JointStep(j: Joint, m: Message, x: JointAction, maxAttempts: nat): Joint {
    match x
    case OfMessage(a, terms) =>
      var (w2, a2) := TableStep(j.w, j.s, m, a, terms);
      Joint(w2, L.Step(j.s, a2, maxAttempts))
    case Elsewhere(a) => if G.Enabled(j.w, a) && IsApart(j.w, m, a) then j.(w := G.Apply(j.w, a)) else j
  }

  ghost function JointRun(j: Joint, m: Message, xs: seq<JointAction>, maxAttempts: nat): Joint {
    if |xs| == 0 then j
    else JointStep(JointRun(j, m, xs[..|xs| - 1], maxAttempts), m, xs[|xs| - 1], maxAttempts)
  }

  /** The message's worker is never interrupted between its debit and its report. */
  ghost predicate Undisturbed(j: Joint, m: Message, xs: seq<JointAction>, maxAttempts: nat) {
    |xs| > 0 ==>
      && Undisturbed(j, m, xs[..|xs| - 1], maxAttempts)
      && var x := xs[|xs| - 1];
         x.OfMessage? ==> !L.Interrupts(JointRun(j, m, xs[..|xs| - 1], maxAttempts).s, x.a)
  }

  ghost predicate Together(j: Joint, m: Message) {
    G.Inv(j.w) && L.WellFormed(j.s) && Related(j.w, j.s, m)
  }

  lemma JointStepKeeps(j: Joint, m: Message, x: JointAction, maxAttempts: nat)
    requires Together(j, m)
    ensures Together(JointStep(j, m, x, maxAttempts), m)
  {
    hide G.Inv, L.WellFormed, Agrees, TableStep, L.Step, G.Apply, G.Enabled, IsApart, LeavesAlone;
    var next := JointStep(j, m, x, maxAttempts);
    match x
    case OfMessage(a, terms) =>
      TableStepIsSound(j.w, j.s, m, a, terms);
      L.StepIsWellFormed(j.s, TableStep(j.w, j.s, m, a, terms).1, maxAttempts);
      forall n: nat ensures Agrees(next.w, next.s, m, n) {
        MessageStepAgrees(j.w, j.s, m, a, terms, maxAttempts, n);
      }
    case Elsewhere(a) =>
      if G.Enabled(j.w, a) && IsApart(j.w, m, a) {
        G.ApplyKeeps(j.w, a);
        forall n: nat ensures Agrees(next.w, next.s, m, n) {
          ElsewhereLeaves(j.w, m, a, n);
          AgreesAt(j.w, j.s, m, n);
          AloneAgrees(j.w, next.w, j.s, j.s, m, n);
        }
      }
  }

  /** What the tables make of a step is an interruption only if the step is one. */
  lemma SameInterruption(w: G.World, s: L.State, m: Message, a: L.Action, t: Terms)
    ensures L.Interrupts(s, TableStep(w, s, m, a, t).1) <==> L.Interrupts(s, a)
  {
    hide RowOf, SettleIn, FailIn, AnchorIn, PaymentOf, SettlementOf;
  }

  lemma {:induction false} JointRunKeeps(j: Joint, m: Message, xs: seq<JointAction>, maxAttempts: nat)
    requires Together(j, m)
    ensures Together(JointRun(j, m, xs, maxAttempts), m)
  {
    hide Together, JointStep;
    if |xs| > 0 {
      JointRunKeeps(j, m, xs[..|xs| - 1], maxAttempts);
      JointStepKeeps(JointRun(j, m, xs[..|xs| - 1], maxAttempts), m, xs[|xs| - 1], maxAttempts);
    }
  }

  lemma {:induction false} JointRunIsRight(j: Joint, m: Message, xs: seq<JointAction>, maxAttempts: nat)
    requires L.Inv(j.s) && Undisturbed(j, m, xs, maxAttempts)
    ensures L.Inv(JointRun(j, m, xs, maxAttempts).s)
  {
    hide L.Inv, L.Step, TableStep, L.Interrupts, G.Apply, G.Enabled, IsApart;
    if |xs| > 0 {
      JointRunIsRight(j, m, xs[..|xs| - 1], maxAttempts);
      var before := JointRun(j, m, xs[..|xs| - 1], maxAttempts);
      match xs[|xs| - 1]
      case OfMessage(a, terms) =>
        SameInterruption(before.w, before.s, m, a, terms);
        L.StepKeeps(before.s, TableStep(before.w, before.s, m, a, terms).1, maxAttempts);
      case Elsewhere(_) =>
    }
  }

  // ------------------------------------------------------------------ the promises

  /** A message that is asked now: no row has one of its keys. */
  ghost predicate IsNew(w: G.World, m: Message) { forall n: nat :: RowOf(w, m, n) == |w.rows| }

  lemma NewIsRelated(w: G.World, m: Message, denied: bool, free: bool)
    requires G.Inv(w) && IsNew(w, m)
    ensures Together(Joint(w, L.Ask(denied, free)), m)
  {
    hide G.Inv;
    L.AskedIsRight(denied, free);
    forall n: nat ensures Agrees(w, L.Ask(denied, free), m, n) {
      assert RowOf(w, m, n) == |w.rows|;
    }
  }

  /** A debit of one of the message's generations. */
  ghost predicate IsDebitOf(w: G.World, m: Message, t: Tx) { t.key.GenerationKey? && IsRowOf(w, m, t.key.id) }

  /** A debit of the message in the ledger is the debit of one of its attempts. */
  lemma DebitHasAttempt(j: Joint, m: Message, i: nat) returns (n: nat)
    requires Together(j, m) && i < |j.w.books.rows| && IsDebitOf(j.w, m, j.w.books.rows[i])
    ensures n in j.s.debits && j.s.debits[n] == j.w.books.rows[i].amount
    ensures j.w.books.rows[i].key == GenerationKey(RowOf(j.w, m, n)) && j.w.books.rows[i].user == m.user
  {
    hide KeyOf, L.WellFormed, G.TrueHistory, G.OneTrialEach, G.AllPaid, G.CallsPoint, G.Settles, Balanced, Positive;
    var t := j.w.books.rows[i];
    assert G.DebitIsSettled(j.w.rows, j.w.settled, i, t);
    var k: nat :| j.w.rows[t.key.id].key == KeyOf(m, k);
    n := k;
    FindUniqueRow(j.w.rows, m.user, KeyOf(m, k), t.key.id);
    AgreesAt(j.w, j.s, m, k);
    assert HasKey(j.w.books.rows, m.user, GenerationKey(t.key.id));
    OneAmount(j.w.books.rows, t, i, j.s.debits[k]);
  }

  lemma OneAmount(rows: seq<Tx>, t: Tx, i: nat, amount: int)
    requires UniqueKeys(rows) && i < |rows| && rows[i] == t && t.key.GenerationKey?
    requires HasRow(rows, G.DebitOf(t.key.id, t.user, amount))
    ensures t.amount == amount
  {
    var k :| 0 <= k < |rows| && IsRow(rows[k], G.DebitOf(t.key.id, t.user, amount));
    FindUnique(rows, t.user, t.key, i);
    FindUnique(rows, t.user, t.key, k);
  }

  /**
   * ONE DEBIT IN THE LEDGER. Whatever the message's user and worker do, and whatever everyone else
   * does in between, the ledger has at most one debit for all attempts of the message.
   */
  lemma OneLedgerDebit(w: G.World, m: Message, denied: bool, free: bool, xs: seq<JointAction>, maxAttempts: nat,
                       i: nat, j: nat)
    requires G.Inv(w) && IsNew(w, m) && Undisturbed(Joint(w, L.Ask(denied, free)), m, xs, maxAttempts)
    requires var end := JointRun(Joint(w, L.Ask(denied, free)), m, xs, maxAttempts);
             && i < |end.w.books.rows| && IsDebitOf(end.w, m, end.w.books.rows[i])
             && j < |end.w.books.rows| && IsDebitOf(end.w, m, end.w.books.rows[j])
    ensures i == j
  {
    hide G.Inv, IsNew, Undisturbed, JointRun, Together, L.WellFormed, IsDebitOf, L.Inv, RowOf;
    var start := Joint(w, L.Ask(denied, free));
    NewIsRelated(w, m, denied, free);
    JointRunKeeps(start, m, xs, maxAttempts);
    L.AskedIsRight(denied, free);
    JointRunIsRight(start, m, xs, maxAttempts);
    var end := JointRun(start, m, xs, maxAttempts);
    var a := DebitHasAttempt(end, m, i);
    var b := DebitHasAttempt(end, m, j);
    L.InvKeepsPromise(end.s);
    var rows := end.w.books.rows;
    UniqueOf(end, m);
    FindUnique(rows, m.user, rows[i].key, i);
    FindUnique(rows, m.user, rows[i].key, j);
  }

  lemma UniqueOf(j: Joint, m: Message)
    requires Together(j, m)
    ensures UniqueKeys(j.w.books.rows)
  {}

  /**
   * THE LEDGER AND THE REPORT. A debit of the message is there only if it succeeded, or is about to;
   * a message that succeeded reports exactly what the ledger took for it, or zero if it took nothing.
   */
  lemma LedgerIsReported(w: G.World, m: Message, denied: bool, free: bool, xs: seq<JointAction>, maxAttempts: nat)
    requires G.Inv(w) && IsNew(w, m) && Undisturbed(Joint(w, L.Ask(denied, free)), m, xs, maxAttempts)
    ensures var end := JointRun(Joint(w, L.Ask(denied, free)), m, xs, maxAttempts);
            forall i :: 0 <= i < |end.w.books.rows| && IsDebitOf(end.w, m, end.w.books.rows[i]) ==>
              if end.s.phase.Succeeded? then end.s.charged == Some(end.w.books.rows[i].amount) else L.IsPaid(end.s)
    ensures var end := JointRun(Joint(w, L.Ask(denied, free)), m, xs, maxAttempts);
            && end.s.phase.Succeeded?
            && (forall i :: 0 <= i < |end.w.books.rows| ==> !IsDebitOf(end.w, m, end.w.books.rows[i])) ==>
              end.s.charged == Some(0)
  {
    hide G.Inv, IsNew, Undisturbed, JointRun, Together, L.WellFormed, IsDebitOf, L.Inv, RowOf;
    var start := Joint(w, L.Ask(denied, free));
    NewIsRelated(w, m, denied, free);
    JointRunKeeps(start, m, xs, maxAttempts);
    L.AskedIsRight(denied, free);
    JointRunIsRight(start, m, xs, maxAttempts);
    var end := JointRun(start, m, xs, maxAttempts);
    L.InvKeepsPromise(end.s);
    forall i | 0 <= i < |end.w.books.rows| && IsDebitOf(end.w, m, end.w.books.rows[i])
      ensures if end.s.phase.Succeeded? then end.s.charged == Some(end.w.books.rows[i].amount) else L.IsPaid(end.s)
    {
      var n := DebitHasAttempt(end, m, i);
    }
    if end.s.phase.Succeeded? && end.s.charged != Some(0) {
      var n :| n in end.s.debits;
      var i := AttemptHasDebit(end, m, n);
    }
  }

  lemma AttemptHasDebit(j: Joint, m: Message, n: nat) returns (i: nat)
    requires Together(j, m) && n in j.s.debits
    ensures i < |j.w.books.rows| && IsDebitOf(j.w, m, j.w.books.rows[i])
  {
    hide KeyOf, G.Inv, L.WellFormed;
    AgreesAt(j.w, j.s, m, n);
    var at := RowOf(j.w, m, n);
    var k :| 0 <= k < |j.w.books.rows| && j.w.books.rows[k].user == m.user && j.w.books.rows[k].key == GenerationKey(at);
    i := k;
    assert j.w.rows[at].key == KeyOf(m, n);
  }
}
