/**
 * The life of a message speaks of anchors and debits by attempt. Here it runs against the tables, among
 * all other calls, and its promises become promises about the ledger.
 */
module Refinement {
  import opened Numbers
  import opened Strings
  import opened Wallet
  import opened Policy
  import G = Generation
  import P = PaidCalls
  import L = Lifecycle

  /** A message of a user; `name` is `answer:<id>` or `summary:<id>`. */
  datatype Message = Message(user: nat, name: string)

  /** The idempotency key of an attempt. */
  function KeyOf(m: Message, attempt: nat): string { m.name + ":" + Digits(attempt) }

  lemma KeysDiffer(m: Message, a: nat, b: nat)
    requires KeyOf(m, a) == KeyOf(m, b)
    ensures a == b
  {
    hide Digits;
    var prefix := m.name + ":";
    assert Digits(a) == KeyOf(m, a)[|prefix|..] && Digits(b) == KeyOf(m, b)[|prefix|..];
    DigitsRead(a);
    DigitsRead(b);
  }

  ghost predicate IsOf(m: Message, user: nat, key: string) {
    user == m.user && exists n: nat :: key == KeyOf(m, n)
  }

  // ------------------------------------------------------------------ the relation

  function RowOf(w: G.World, m: Message, n: nat): (at: nat)
    ensures at <= |w.rows|
  {
    G.FindRow(w.rows, m.user, KeyOf(m, n))
  }

  predicate StatusIs(status: G.Status, anchor: L.Anchor) {
    match status
    case Running => anchor.InFlight?
    case Succeeded => anchor.Completed?
    case Failed => anchor.Broken?
  }

  /** The anchor of an attempt is the row of its request. */
  predicate AnchorAgrees(w: G.World, m: Message, anchors: map<nat, L.Anchor>, n: nat) {
    var at := RowOf(w, m, n);
    if at == |w.rows| then n !in anchors else n in anchors && StatusIs(w.rows[at].status, anchors[n])
  }

  /** The debit of a generation is the ledger row under its key. */
  ghost predicate IsDebited(b: Books, user: nat, gen: nat, debits: map<nat, int>, n: nat) {
    && (HasKey(b.rows, user, GenerationKey(gen)) <==> n in debits)
    && (n in debits ==> debits[n] > 0 && HasRow(b.rows, G.DebitOf(gen, user, debits[n])))
  }

  ghost predicate DebitAgrees(w: G.World, m: Message, debits: map<nat, int>, n: nat) {
    var at := RowOf(w, m, n);
    if at == |w.rows| then n !in debits else IsDebited(w.books, m.user, at, debits, n)
  }

  ghost predicate Agrees(w: G.World, s: L.State, m: Message, n: nat) {
    AnchorAgrees(w, m, s.anchors, n) && DebitAgrees(w, m, s.debits, n)
  }

  /** The tables and the message tell the same of every attempt. */
  ghost predicate Related(w: G.World, s: L.State, m: Message) {
    forall n: nat :: Agrees(w, s, m, n)
  }

  // ------------------------------------------------------------------ the message's own transactions

  /** What the gate decided and what the usage costs. */
  datatype Terms = Terms(kind: BillingKind, credits: int)

  function FailIn(w: G.World, at: nat): G.World {
    if at < |w.rows| && G.FailRow(w.rows[at]).Some? then w.(rows := w.rows[at := G.FailRow(w.rows[at]).value]) else w
  }

  function AnchorIn(w: G.World, m: Message, n: nat, kind: BillingKind): G.World {
    w.(rows := P.AnchorAndReopen(w.rows, m.user, KeyOf(m, n), kind).0)
  }

  function SettlementOf(w: G.World, gen: nat, t: Terms): Option<G.Settlement>
    requires gen < |w.rows|
  {
    G.Settle(w, gen, w.rows[gen].user, t.kind, t.credits).2
  }

  /** `_settle` and `finalize` in one transaction; nothing is left of an abort. */
  function SettleIn(w: G.World, gen: nat, t: Terms): G.World
    requires gen < |w.rows|
  {
    var s := SettlementOf(w, gen, t);
    if s.None? then w
    else G.Settled(w, gen, t.kind, t.credits).(rows := w.rows[gen := G.Finalize(w.rows[gen], s.value)])
  }

  /** How the settlement looks from the message. */
  function PaymentOf(s: Option<G.Settlement>, t: Terms): L.Payment {
    if s.Some? && s.value.billing.ByTrial? then L.ByTrial
    else if s.Some? && s.value.billing.Unbilled? then L.Unbilled
    else L.Debit(t.credits)
  }

  /** What a step of the message does to the tables, and the step as the tables let it come out. */
  function TableStep(w: G.World, s: L.State, m: Message, a: L.Action, t: Terms): (G.World, L.Action) {
    if !s.job.Held? then (w, a)
    else
      var at := s.job.at;
      match a
      case RunGate(gate) => if at.Asking? && gate.Allowed? then (AnchorIn(w, m, at.attempt, t.kind), a) else (w, a)
      case RecoverOrphan(stale) => if at.Refused? && stale then (FailIn(w, RowOf(w, m, at.attempt)), a) else (w, a)
      case ProviderReturns(ok) => if at.Providing? && !ok then (FailIn(w, RowOf(w, m, at.attempt)), a) else (w, a)
      case Settle(_) =>
        if at.Settling? && RowOf(w, m, at.attempt) < |w.rows| then
          var gen := RowOf(w, m, at.attempt);
          (SettleIn(w, gen, t), L.Settle(PaymentOf(SettlementOf(w, gen, t), t)))
        else (w, a)
      case _ => (w, a)
  }

  // ------------------------------------------------------------------ rows

  lemma FindUniqueRow(rows: seq<G.Row>, user: nat, key: string, at: nat)
    requires G.OneRowPerKey(rows) && at < |rows| && rows[at].user == user && rows[at].key == key
    ensures G.FindRow(rows, user, key) == at
  {
    var found := G.FindRow(rows, user, key);
    assert found <= at;
    assert !(found < at);
  }

  lemma FindAfterUpdate(rows: seq<G.Row>, at: nat, r: G.Row, user: nat, key: string)
    requires at < |rows| && r.user == rows[at].user && r.key == rows[at].key
    ensures G.FindRow(rows[at := r], user, key) == G.FindRow(rows, user, key)
  {
    var after := rows[at := r];
    var was, found := G.FindRow(rows, user, key), G.FindRow(after, user, key);
    assert forall i :: 0 <= i < |rows| ==> after[i].user == rows[i].user && after[i].key == rows[i].key;
    assert was < |rows| ==> found <= was;
    assert found < |rows| ==> was <= found;
  }

  lemma FindAfterInsert(rows: seq<G.Row>, r: G.Row, user: nat, key: string)
    ensures G.FindRow(rows + [r], user, key) ==
            if G.FindRow(rows, user, key) < |rows| then G.FindRow(rows, user, key)
            else if r.user == user && r.key == key then |rows| else |rows| + 1
  {
    var after := rows + [r];
    var was, found := G.FindRow(rows, user, key), G.FindRow(after, user, key);
    assert after[|rows|] == r && forall i :: 0 <= i < |rows| ==> after[i] == rows[i];
    assert was < |rows| ==> found <= was;
    assert found < |rows| ==> was <= found;
  }

  // ------------------------------------------------------------------ a frame for the other attempts

  /** Nothing that concerns this attempt is different. */
  ghost predicate LeavesAlone(w: G.World, w2: G.World, m: Message, n: nat) {
    var at, at2 := RowOf(w, m, n), RowOf(w2, m, n);
    if at == |w.rows| then at2 == |w2.rows|
    else
      && at2 == at < |w2.rows| && w2.rows[at].status == w.rows[at].status
      && (HasKey(w2.books.rows, m.user, GenerationKey(at)) <==> HasKey(w.books.rows, m.user, GenerationKey(at)))
      && forall credits :: HasRow(w.books.rows, G.DebitOf(at, m.user, credits)) ==>
                             HasRow(w2.books.rows, G.DebitOf(at, m.user, credits))
  }

  lemma AloneAgrees(w: G.World, w2: G.World, s: L.State, s2: L.State, m: Message, n: nat)
    requires Agrees(w, s, m, n) && LeavesAlone(w, w2, m, n)
    requires (n in s2.anchors <==> n in s.anchors) && (n in s.anchors ==> s2.anchors[n] == s.anchors[n])
    requires (n in s2.debits <==> n in s.debits) && (n in s.debits ==> s2.debits[n] == s.debits[n])
    ensures Agrees(w2, s2, m, n)
  {
    hide KeyOf, HasKey, HasRow, G.FindRow;
  }

  /** A ledger that gained at most one row, under another key. */
  ghost predicate LedgerLeaves(a: seq<Tx>, b: seq<Tx>, key: Key) {
    b == a || (|b| == |a| + 1 && b[..|a|] == a && b[|a|].key != key)
  }

  lemma LedgerFrame(a: seq<Tx>, b: seq<Tx>, user: nat, gen: nat)
    requires LedgerLeaves(a, b, GenerationKey(gen))
    ensures HasKey(b, user, GenerationKey(gen)) <==> HasKey(a, user, GenerationKey(gen))
    ensures forall credits :: HasRow(a, G.DebitOf(gen, user, credits)) ==> HasRow(b, G.DebitOf(gen, user, credits))
  {
    assert forall i :: 0 <= i < |a| ==> b[i] == b[..|a|][i] == a[i];
    if HasKey(a, user, GenerationKey(gen)) {
      var i :| 0 <= i < |a| && a[i].user == user && a[i].key == GenerationKey(gen);
      assert b[i] == a[i];
    }
    if HasKey(b, user, GenerationKey(gen)) {
      var i :| 0 <= i < |b| && b[i].user == user && b[i].key == GenerationKey(gen);
      assert i < |a| && a[i] == b[i];
    }
    forall credits | HasRow(a, G.DebitOf(gen, user, credits)) ensures HasRow(b, G.DebitOf(gen, user, credits)) {
      var i :| 0 <= i < |a| && IsRow(a[i], G.DebitOf(gen, user, credits));
      assert b[i] == a[i];
    }
  }

  /** A row of someone else is updated, or added, or none; and the ledger leaves the attempt alone. */
  lemma UpdateLeaves(w: G.World, w2: G.World, m: Message, n: nat, at: nat, r: G.Row)
    requires at < |w.rows| && r.user == w.rows[at].user && r.key == w.rows[at].key && w2.rows == w.rows[at := r]
    requires at != RowOf(w, m, n)
    requires LedgerLeaves(w.books.rows, w2.books.rows, GenerationKey(RowOf(w, m, n)))
    ensures LeavesAlone(w, w2, m, n)
  {
    hide KeyOf, HasKey, HasRow, LedgerLeaves, G.FindRow;
    FindAfterUpdate(w.rows, at, r, m.user, KeyOf(m, n));
    LedgerFrame(w.books.rows, w2.books.rows, m.user, RowOf(w, m, n));
  }

  lemma InsertLeaves(w: G.World, w2: G.World, m: Message, n: nat, r: G.Row)
    requires w2.rows == w.rows + [r] && !(r.user == m.user && r.key == KeyOf(m, n)) && w2.books == w.books
    ensures LeavesAlone(w, w2, m, n)
  {
    hide KeyOf, HasKey, HasRow, G.FindRow;
    FindAfterInsert(w.rows, r, m.user, KeyOf(m, n));
  }

  lemma SameRowsLeave(w: G.World, w2: G.World, m: Message, n: nat)
    requires w2.rows == w.rows && LedgerLeaves(w.books.rows, w2.books.rows, GenerationKey(RowOf(w, m, n)))
    ensures LeavesAlone(w, w2, m, n)
  {
    hide KeyOf, HasKey, HasRow, LedgerLeaves, G.FindRow;
    LedgerFrame(w.books.rows, w2.books.rows, m.user, RowOf(w, m, n));
  }

  lemma RowsDiffer(w: G.World, m: Message, n: nat, k: nat)
    requires n != k && RowOf(w, m, n) < |w.rows|
    ensures RowOf(w, m, n) != RowOf(w, m, k)
  {
    hide KeyOf;
    if KeyOf(m, n) == KeyOf(m, k) { KeysDiffer(m, n, k); }
  }
}
