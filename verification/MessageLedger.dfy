/** Every step of a message, and of everyone else, keeps the ledger and the message in agreement. */
module MessageLedger {
  import opened Strings
  import opened Wallet
  import opened Policy
  import opened Refinement
  import G = Generation
  import P = PaidCalls
  import L = Lifecycle

  // ------------------------------------------------------------------ the steps of the message

  lemma AgreesAt(w: G.World, s: L.State, m: Message, n: nat)
    requires Related(w, s, m)
    ensures Agrees(w, s, m, n)
  {}

  /** A row that the message knows to be running was never charged. */
  lemma RunningRow(w: G.World, s: L.State, m: Message, k: nat)
    requires G.Inv(w) && Agrees(w, s, m, k) && L.HasAnchor(s, k, L.InFlight)
    ensures var at := RowOf(w, m, k);
            && at < |w.rows| && w.rows[at].user == m.user && w.rows[at].key == KeyOf(m, k)
            && w.rows[at].status.Running? && w.rows[at].charged == 0
  {
    hide KeyOf, HasKey, HasRow, G.OneRowPerKey, G.TrueHistory, G.OneTrialEach, G.DebitsAreSettled, Sound;
    assert G.IsPaid(w.books, RowOf(w, m, k), w.rows[RowOf(w, m, k)]);
  }

  /** The anchor in the tables is the anchor of the message. */
  lemma GateAgrees(w: G.World, s: L.State, m: Message, k: nat, kind: BillingKind, truncated: bool, n: nat)
    requires G.Inv(w) && Related(w, s, m) && s.job.Held?
    ensures Agrees(AnchorIn(w, m, k, kind), L.AskGate(s, k, L.Allowed(truncated)), m, n)
  {
    hide KeyOf, HasKey, HasRow, G.Inv, G.FindRow, Related, LeavesAlone, Agrees;
    var at := RowOf(w, m, k);
    var w2, s2 := AnchorIn(w, m, k, kind), L.AskGate(s, k, L.Allowed(truncated));
    AgreesAt(w, s, m, n);
    AgreesAt(w, s, m, k);
    if at == |w.rows| {
      var r := G.NewRow(m.user, KeyOf(m, k));
      GateOpens(w, s, m, k);
      if n == k {
        FindAfterInsert(w.rows, r, m.user, KeyOf(m, n));
        P.FreshGeneration(w, m.user, at);
        NewAgrees(w2, s2, m, k);
      } else {
        InsertLeavesOther(w, w2, m, n, k, r);
        AloneAgrees(w, w2, s, s2, m, n);
      }
    } else if w.rows[at].status.Failed? {
      GateReopens(w, s, m, k, kind);
      var r := G.Reopen(w.rows[at]).value;
      if n == k {
        FindAfterUpdate(w.rows, at, r, m.user, KeyOf(m, n));
        ReopenedAgrees(w, w2, s, s2, m, k);
      } else {
        RowsDiffer(w, m, k, n);
        UpdateLeaves(w, w2, m, n, at, r);
        AloneAgrees(w, w2, s, s2, m, n);
      }
    } else {
      GateKeeps(w, s, m, k, kind, truncated);
      AgreesAgain(w, w2, s, s2, m, n);
    }
  }

  /** The anchors and the status agree when the gate opens a new row. */
  lemma GateOpens(w: G.World, s: L.State, m: Message, k: nat)
    requires Agrees(w, s, m, k) && RowOf(w, m, k) == |w.rows|
    ensures k !in s.anchors && k !in s.debits
  {}

  lemma NewAgrees(w2: G.World, s2: L.State, m: Message, k: nat)
    requires RowOf(w2, m, k) < |w2.rows| && w2.rows[RowOf(w2, m, k)].status.Running?
    requires L.HasAnchor(s2, k, L.InFlight) && k !in s2.debits
    requires !HasKey(w2.books.rows, m.user, GenerationKey(RowOf(w2, m, k)))
    ensures Agrees(w2, s2, m, k)
  {
    hide KeyOf, HasKey, HasRow, G.FindRow;
  }

  lemma InsertLeavesOther(w: G.World, w2: G.World, m: Message, n: nat, k: nat, r: G.Row)
    requires n != k && r.key == KeyOf(m, k) && w2.rows == w.rows + [r] && w2.books == w.books
    ensures LeavesAlone(w, w2, m, n)
  {
    hide KeyOf, LeavesAlone;
    if KeyOf(m, n) == KeyOf(m, k) { KeysDiffer(m, n, k); }
    InsertLeaves(w, w2, m, n, r);
  }

  lemma GateReopens(w: G.World, s: L.State, m: Message, k: nat, kind: BillingKind)
    requires G.Inv(w) && Agrees(w, s, m, k) && RowOf(w, m, k) < |w.rows| && w.rows[RowOf(w, m, k)].status.Failed?
    ensures L.HasAnchor(s, k, L.Broken)
    ensures var at := RowOf(w, m, k);
            G.Reopen(w.rows[at]).Some? && AnchorIn(w, m, k, kind).rows == w.rows[at := G.Reopen(w.rows[at]).value]
  {
    hide KeyOf, HasKey, HasRow, G.OneRowPerKey, G.TrueHistory, G.OneTrialEach, G.DebitsAreSettled, Sound, G.FindRow;
    assert G.IsPaid(w.books, RowOf(w, m, k), w.rows[RowOf(w, m, k)]);
  }

  lemma ReopenedAgrees(w: G.World, w2: G.World, s: L.State, s2: L.State, m: Message, k: nat)
    requires Agrees(w, s, m, k) && RowOf(w2, m, k) == RowOf(w, m, k) < |w2.rows| == |w.rows|
    requires w2.rows[RowOf(w, m, k)].status.Running? && w2.books == w.books
    requires L.HasAnchor(s2, k, L.InFlight) && s2.debits == s.debits
    ensures Agrees(w2, s2, m, k)
  {
    hide KeyOf, HasKey, HasRow, G.FindRow;
  }

  lemma GateKeeps(w: G.World, s: L.State, m: Message, k: nat, kind: BillingKind, truncated: bool)
    requires Agrees(w, s, m, k) && s.job.Held?
    requires RowOf(w, m, k) < |w.rows| && !w.rows[RowOf(w, m, k)].status.Failed?
    ensures AnchorIn(w, m, k, kind) == w
    ensures L.AskGate(s, k, L.Allowed(truncated)).anchors == s.anchors
    ensures L.AskGate(s, k, L.Allowed(truncated)).debits == s.debits
  {
    hide KeyOf, HasKey, HasRow, G.FindRow;
  }

  lemma AgreesAgain(w: G.World, w2: G.World, s: L.State, s2: L.State, m: Message, n: nat)
    requires Agrees(w, s, m, n) && w2.rows == w.rows && w2.books == w.books
    requires s2.anchors == s.anchors && s2.debits == s.debits
    ensures Agrees(w2, s2, m, n)
  {
    hide KeyOf, HasKey, HasRow, G.FindRow;
  }

  /** The call that the tables put through is the point that the worker reaches. */
  lemma GateOutcome(w: G.World, s: L.State, m: Message, k: nat, kind: BillingKind, truncated: bool)
    requires G.Inv(w) && Agrees(w, s, m, k) && s.job.Held?
    ensures var call := P.AnchorAndReopen(w.rows, m.user, KeyOf(m, k), kind).1;
            var next := L.AskGate(s, k, L.Allowed(truncated));
            && (call.AtProvider? <==> next.job.at == L.Providing(k))
            && (call == G.Ended(G.AlreadyInProgress) <==> next.job.at == L.Refused(k))
            && (call.Ended? && call.result.Delivered? <==> next.job.at.Closing?)
  {
    hide KeyOf, HasKey, HasRow, G.OneRowPerKey, G.TrueHistory, G.OneTrialEach, G.DebitsAreSettled, Sound, G.FindRow;
    var at := RowOf(w, m, k);
    if at < |w.rows| { assert G.IsPaid(w.books, at, w.rows[at]); }
  }

  /** A provider failure, or the recovery of an orphan. */
  lemma FailureAgrees(w: G.World, s: L.State, s2: L.State, m: Message, k: nat, n: nat)
    requires G.Inv(w) && Related(w, s, m) && L.HasAnchor(s, k, L.InFlight)
    requires s2.anchors == s.anchors[k := L.Broken] && s2.debits == s.debits
    ensures Agrees(FailIn(w, RowOf(w, m, k)), s2, m, n)
  {
    hide KeyOf, HasKey, HasRow, G.Inv, G.FindRow, Related, LeavesAlone, Agrees;
    AgreesAt(w, s, m, n);
    AgreesAt(w, s, m, k);
    RunningRow(w, s, m, k);
    var at := RowOf(w, m, k);
    var w2 := FailIn(w, at);
    var r := G.FailRow(w.rows[at]).value;
    if n == k {
      FindAfterUpdate(w.rows, at, r, m.user, KeyOf(m, n));
      FailedAgrees(w, w2, s, s2, m, k);
    } else {
      RowsDiffer(w, m, k, n);
      UpdateLeaves(w, w2, m, n, at, r);
      AloneAgrees(w, w2, s, s2, m, n);
    }
  }

  lemma FailedAgrees(w: G.World, w2: G.World, s: L.State, s2: L.State, m: Message, k: nat)
    requires Agrees(w, s, m, k) && RowOf(w2, m, k) == RowOf(w, m, k) < |w2.rows| == |w.rows|
    requires w2.rows[RowOf(w, m, k)].status.Failed? && w2.books == w.books
    requires L.HasAnchor(s2, k, L.Broken) && s2.debits == s.debits
    ensures Agrees(w2, s2, m, k)
  {
    hide KeyOf, HasKey, HasRow, G.FindRow;
  }

  // ------------------------------------------------------------------ settlements

  /** A generation debited before: the same amount is a replay, any other a conflict. */
  lemma SameAmountOrNot(b: Books, gen: nat, user: nat, before: int, credits: int)
    requires Sound(b) && before > 0 && credits > 0 && HasRow(b.rows, G.DebitOf(gen, user, before))
    ensures var (after, r) := Move(b, G.DebitOf(gen, user, credits));
            && after.rows == b.rows
            && (if before == credits then r.Done? else r.Conflict?)
  {
    hide Sound;
    MoveOutcomes(b, G.DebitOf(gen, user, credits)) by { hide *; }
    var t := G.DebitOf(gen, user, before);
    var i :| 0 <= i < |b.rows| && IsRow(b.rows[i], t);
    FindUnique(b.rows, user, GenerationKey(gen), i) by { hide *; SoundKeys(b); }
  }

  lemma SoundKeys(b: Books)
    requires Sound(b)
    ensures UniqueKeys(b.rows)
  {}

  lemma NewDebit(b: Books, t: Tx)
    requires Sound(b) && t.amount > 0 && t.kind.Debit?
    requires !HasKey(b.rows, t.user, t.key) && !Move(b, t).1.Insufficient?
    ensures Move(b, t).1.Done?
    ensures HasKey(Move(b, t).0.rows, t.user, t.key) && HasRow(Move(b, t).0.rows, t)
  {
    hide Sound, Move, Net;
    MoveOutcomes(b, t);
    NoRowWithoutKey(b.rows, t);
    MoveEffect(b, t, t.user);
    var rows := Move(b, t).0.rows;
    assert rows[|b.rows|] == t && IsRow(rows[|b.rows|], t);
  }

  lemma NoRowWithoutKey(rows: seq<Tx>, t: Tx)
    requires !HasKey(rows, t.user, t.key)
    ensures !HasRow(rows, t)
  {
    forall i | 0 <= i < |rows| ensures !IsRow(rows[i], t) {
      assert !(rows[i].user == t.user && rows[i].key == t.key);
    }
  }

  lemma SettleByMove(w: G.World, gen: nat, user: nat, kind: BillingKind, credits: int)
    requires !(kind.ByTrial? && user !in w.trialUsed) && credits > 0
    ensures var (books, r) := Move(w.books, G.DebitOf(gen, user, credits));
            G.Settle(w, gen, user, kind, credits) ==
              if r.Done? then (books, w.trialUsed, Some(G.Settlement(gen, user, ByCredits, credits, Some(r.tx))))
              else if r.Insufficient? then (w.books, w.trialUsed, Some(G.Settlement(gen, user, Unbilled, 0, None)))
              else (w.books, w.trialUsed, None)
    ensures !Move(w.books, G.DebitOf(gen, user, credits)).1.Invalid?
  {}

  /** What a settlement leaves: the debit of the attempt, its charge, and the point of the worker. */
  ghost predicate IsSettledAs(w: G.World, gen: nat, user: nat, t: Terms, s: L.State, k: nat)
    requires s.job.Held?
  {
    var (books, _, r) := G.Settle(w, gen, user, t.kind, t.credits);
    var next := L.SettleRun(s, k, PaymentOf(r, t));
    && IsDebited(books, user, gen, next.debits, k)
    && (if r.None? then next.job.at.Raised? && next.anchors == s.anchors
        else next.job.at == L.Closing(L.Succeeded, Some(r.value.charged), Some(k)) && L.HasAnchor(next, k, L.Completed))
  }

  /** A settlement against the wallet is a settlement in the message's life, with the same charge. */
  lemma SettlementRefines(w: G.World, gen: nat, user: nat, t: Terms, s: L.State, k: nat)
    requires Sound(w.books) && s.job.Held? && IsDebited(w.books, user, gen, s.debits, k)
    ensures IsSettledAs(w, gen, user, t, s, k)
  {
    hide Sound, HasKey, HasRow, Move, Net;
    var debit := G.DebitOf(gen, user, t.credits);
    if !(t.kind.ByTrial? && user !in w.trialUsed) && t.credits > 0 {
      SettleByMove(w, gen, user, t.kind, t.credits);
      if k in s.debits {
        SameAmountOrNot(w.books, gen, user, s.debits[k], t.credits);
      } else if !Move(w.books, debit).1.Insufficient? {
        NewDebit(w.books, debit);
      }
    }
  }

  lemma SettleInTables(w: G.World, gen: nat, t: Terms)
    requires G.Inv(w) && gen < |w.rows|
    ensures var w2 := SettleIn(w, gen, t);
            var (books, _, r) := G.Settle(w, gen, w.rows[gen].user, t.kind, t.credits);
            && w2.books.rows == books.rows
            && (if r.None? then w2 == w else w2.rows == w.rows[gen := G.Finalize(w.rows[gen], r.value)])
            && forall key :: key != GenerationKey(gen) ==> LedgerLeaves(w.books.rows, w2.books.rows, key)
  {
    hide G.Inv;
    if SettlementOf(w, gen, t).Some? {
      hide Move, FindTx;
      G.SettleIsRecorded(w, gen, t.kind, t.credits);
    } else {
      RefusalChangesNothing(w.books, G.DebitOf(gen, w.rows[gen].user, t.credits));
    }
  }

  lemma SettlementAgrees(w: G.World, s: L.State, m: Message, k: nat, t: Terms, n: nat)
    requires G.Inv(w) && Related(w, s, m) && s.job.Held? && L.HasAnchor(s, k, L.InFlight)
    requires RowOf(w, m, k) < |w.rows|
    ensures var gen := RowOf(w, m, k);
            Agrees(SettleIn(w, gen, t), L.SettleRun(s, k, PaymentOf(SettlementOf(w, gen, t), t)), m, n)
  {
    hide KeyOf, HasKey, HasRow, G.Inv, G.FindRow, G.Settle, Related, LeavesAlone, Agrees, SettleIn, LedgerLeaves;
    AgreesAt(w, s, m, n);
    AgreesAt(w, s, m, k);
    RunningRow(w, s, m, k);
    var gen := RowOf(w, m, k);
    var r := SettlementOf(w, gen, t);
    var w2, s2 := SettleIn(w, gen, t), L.SettleRun(s, k, PaymentOf(r, t));
    P.InvSound(w);
    DebitOfKnown(w, s, m, k);
    SettlementRefines(w, gen, m.user, t, s, k);
    SettleInTables(w, gen, t);
    if n == k {
      if r.Some? { FindAfterUpdate(w.rows, gen, G.Finalize(w.rows[gen], r.value), m.user, KeyOf(m, n)); }
      SettledAgrees(w, w2, s, s2, m, k, t);
    } else {
      RowsDiffer(w, m, k, n);
      SettleRunIsLocal(s, k, PaymentOf(r, t), n);
      if r.Some? {
        UpdateLeaves(w, w2, m, n, gen, G.Finalize(w.rows[gen], r.value));
      } else {
        SameRowsLeave(w, w2, m, n);
      }
      AloneAgrees(w, w2, s, s2, m, n);
    }
  }

  lemma DebitOfKnown(w: G.World, s: L.State, m: Message, k: nat)
    requires Agrees(w, s, m, k) && RowOf(w, m, k) < |w.rows|
    ensures IsDebited(w.books, m.user, RowOf(w, m, k), s.debits, k)
  {}

  lemma SettleRunIsLocal(s: L.State, k: nat, payment: L.Payment, n: nat)
    requires s.job.Held? && n != k
    ensures var s2 := L.SettleRun(s, k, payment);
            && (n in s2.anchors <==> n in s.anchors) && (n in s.anchors ==> s2.anchors[n] == s.anchors[n])
            && (n in s2.debits <==> n in s.debits) && (n in s.debits ==> s2.debits[n] == s.debits[n])
  {}

  lemma SettledAgrees(w: G.World, w2: G.World, s: L.State, s2: L.State, m: Message, k: nat, t: Terms)
    requires Agrees(w, s, m, k) && s.job.Held? && RowOf(w2, m, k) == RowOf(w, m, k) < |w2.rows| == |w.rows|
    requires IsSettledAs(w, RowOf(w, m, k), m.user, t, s, k) && w.rows[RowOf(w, m, k)].user == m.user
    requires var (books, _, r) := G.Settle(w, RowOf(w, m, k), m.user, t.kind, t.credits);
             && s2 == L.SettleRun(s, k, PaymentOf(r, t)) && w2.books.rows == books.rows
             && (if r.None? then w2 == w
                 else w2.rows[RowOf(w, m, k)] == G.Finalize(w.rows[RowOf(w, m, k)], r.value))
    ensures Agrees(w2, s2, m, k)
  {
    hide KeyOf, HasKey, HasRow, G.FindRow, G.Settle, L.SettleRun, PaymentOf;
  }
}
