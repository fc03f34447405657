/** What re-deliveries and second refund events do, and the journal as the program runs it. */
module Journal {
  import opened Numbers
  import opened Strings
  import opened Wallet
  import opened Payments

  // ------------------------------------------------------------------ layer one: deliveries

  lemma StepGrows(products: map<string, Product>, s: Store, op: Op)
    ensures s.payments <= Step(products, s, op).payments
    ensures s.books.rows <= Step(products, s, op).books.rows
  {
    hide FindPayment, Matched, Allowed;
    match op
    case Pay(d) => hide Move; RecordGrows(products, s, d);
    case Reverse(e) =>
      ReverseGrows(s.books, CreditsOf(s, e), |CreditsOf(s, e)|);
    case AdminGrant(user, amount, name) =>
    case Charge(user, amount, generation) =>
    case Aborted =>
  }

  lemma RecordGrows(products: map<string, Product>, s: Store, d: Delivery)
    ensures s.books.rows <= Record(products, s, d).0.books.rows
    ensures s.payments <= Record(products, s, d).0.payments
  {
    hide FindPayment, Allowed;
  }

  lemma {:induction false} ReverseGrows(b: Books, credits: seq<Tx>, k: nat)
    requires k <= |credits|
    ensures b.rows <= ReverseFirst(b, credits, k).books.rows
  {
    if k > 0 {
      hide HasKey, Take;
      ReverseGrows(b, credits, k - 1);
    }
  }

  lemma {:induction false} RunGrows(products: map<string, Product>, s: Store, ops: seq<Op>)
    ensures s.payments <= Run(products, s, ops).payments
    ensures s.books.rows <= Run(products, s, ops).books.rows
  {
    hide Step;
    if |ops| > 0 {
      RunGrows(products, s, ops[..|ops| - 1]);
      StepGrows(products, Run(products, s, ops[..|ops| - 1]), ops[|ops| - 1]);
    }
  }

  predicate Known(payments: seq<Payment>, channel: string, externalId: string) {
    FindPayment(payments, channel, externalId) < |payments|
  }

  lemma KnownStays(payments: seq<Payment>, more: seq<Payment>, channel: string, externalId: string)
    requires Known(payments, channel, externalId) && payments <= more
    ensures Known(more, channel, externalId)
  {
    var at := FindPayment(payments, channel, externalId);
    assert more[at] == payments[at];
  }

  lemma KnownAfter(payments: seq<Payment>, p: Payment)
    ensures Known(payments + [p], p.channel, p.externalId)
  {
    assert (payments + [p])[|payments|] == p;
  }

  lemma RecordedIsKnown(products: map<string, Product>, s: Store, d: Delivery)
    requires Record(products, s, d).1.Recorded?
    ensures Known(Record(products, s, d).0.payments, d.channel, d.externalId)
  {
    hide Move, FindPayment, Allowed;
    var after := Record(products, s, d).0;
    if |after.payments| > |s.payments| {
      var p := after.payments[|s.payments|];
      assert after.payments == s.payments + [p];
      KnownAfter(s.payments, p);
    }
  }

  /** The same webhook, whenever it comes again, is recognised and changes nothing. */
  lemma PaymentRedelivery(products: map<string, Product>, s: Store, d: Delivery, between: seq<Op>)
    requires Record(products, s, d).1.Recorded?
    ensures var later := Run(products, Record(products, s, d).0, between);
            Record(products, later, d) == (later, Recorded(Replayed, 0, AtDelivery))
  {
    hide Run, FindPayment, Move, Allowed;
    var first := Record(products, s, d).0;
    RecordedIsKnown(products, s, d);
    RunGrows(products, first, between);
    KnownStays(first.payments, Run(products, first, between).payments, d.channel, d.externalId);
  }

  lemma RefundRedelivery(products: map<string, Product>, s: Store, e: RefundEvent, between: seq<Op>)
    requires !TakeBack(s, e).1.RefundRaised?
    ensures var later := Run(products, TakeBack(s, e).0, between);
            TakeBack(later, e) == (later, AlreadyKnown)
  {
    hide Run, FindPayment, ReverseFirst, Matched;
    var first := TakeBack(s, e).0;
    if TakeBack(s, e).1.Reversed? {
      KnownAfter(s.payments, first.payments[|s.payments|]);
    }
    RunGrows(products, first, between);
    KnownStays(first.payments, Run(products, first, between).payments, e.channel, e.externalId);
  }

  // ------------------------------------------------------------------ layer two: grants

  predicate ReachedGrant(answer: Answer) {
    answer.Recorded? && (answer.status.Granted? || (answer.status.Replayed? && answer.layer.AtGrant?))
  }

  /** A known product that the channel sells. */
  predicate IsSold(products: map<string, Product>, d: Delivery) {
    d.productId.Some? && d.productId.value != "" && d.productId.value in products &&
    d.channel in products[d.productId.value].channels
  }

  /** Exactly when a delivery is known, rejected, or grants nothing. */
  lemma RecordOutcomes(products: map<string, Product>, s: Store, d: Delivery)
    requires Record(products, s, d).1.Recorded?
    ensures var r := Record(products, s, d).1;
            var known := Known(s.payments, d.channel, d.externalId);
            && (r.layer.AtDelivery? <==> known)
            && (r.status.Rejected? <==> !known && !d.kind.SubscriptionEvent? && !IsSold(products, d))
            && (r.status.NoGrant? <==>
                  !known && (d.kind.SubscriptionEvent? || IsSold(products, d)) &&
                  (d.grantKey.None? || Lookup(products, d.productId).None?))
            && (r.credits > 0 ==> r.status.Granted?)
  {
    hide FindPayment, Move;
  }

  /** The grant cannot be carried out: an amount that is none, or the key of another movement. */
  ghost predicate IsUngrantable(b: Books, t: Tx) {
    t.amount <= 0 || (HasKey(b.rows, t.user, t.key) && !HasRow(b.rows, t))
  }

  /** A delivery raises exactly when it names no product though it must, or reaches a grant that cannot be carried
      out; it then leaves nothing behind. */
  lemma RaisedExactly(products: map<string, Product>, s: Store, d: Delivery)
    requires Sound(s.books)
    ensures Record(products, s, d).1.Raised? <==>
              || (!d.kind.SubscriptionEvent? && d.productId.None?)
              || (&& !Known(s.payments, d.channel, d.externalId) && (d.kind.SubscriptionEvent? || IsSold(products, d))
                  && d.grantKey.Some? && Lookup(products, d.productId).Some?
                  && IsUngrantable(s.books, GrantTx(d, Lookup(products, d.productId).value)))
    ensures Record(products, s, d).1.Raised? ==> Record(products, s, d).0 == s
  {
    hide FindPayment, Move, Sound, HasKey, HasRow;
    if d.grantKey.Some? && Lookup(products, d.productId).Some? {
      MoveOutcomes(s.books, GrantTx(d, Lookup(products, d.productId).value));
    }
  }

  /** The journal's row says what the answer says, and names the grant that the delivery made or met. */
  lemma RowTellsTheAnswer(products: map<string, Product>, s: Store, d: Delivery)
    requires Record(products, s, d).1.Recorded?
    ensures var (after, r) := Record(products, s, d);
            if r.layer.AtDelivery? then after == s && r.status.Replayed? && r.credits == 0
            else
              && |after.payments| == |s.payments| + 1 && after.payments[..|s.payments|] == s.payments
              && var row := after.payments[|s.payments|];
                 && row.status == r.status && row.credits == r.credits && row.user == d.user
                 && row.channel == d.channel && row.externalId == d.externalId && row.productId == d.productId
                 && (r.layer.AtGrant? <==> r.status.Replayed?) && (r.credits > 0 <==> r.status.Granted?)
                 && (row.tx.Some? <==> ReachedGrant(r))
                 && (row.tx.Some? ==>
                       && d.grantKey.Some? && row.tx.value < |after.books.rows|
                       && after.books.rows[row.tx.value].user == d.user && after.books.rows[row.tx.value].kind.Credit?
                       && after.books.rows[row.tx.value].key == GrantKey(d.grantKey.value))
  {
    hide FindPayment;
  }

  /** Credits come from the catalogue alone, for a product sold in that channel. */
  lemma CreditsComeFromCatalogue(products: map<string, Product>, s: Store, d: Delivery)
    requires Record(products, s, d).1.Recorded? && Record(products, s, d).1.status.Granted?
    ensures d.grantKey.Some? && d.productId.Some? && d.productId.value in products
    ensures var p := products[d.productId.value];
            && Record(products, s, d).1.credits == p.credits > 0
            && (d.channel in p.channels || d.kind.SubscriptionEvent?)
            && Record(products, s, d).0.books.rows == s.books.rows + [GrantTx(d, p)]
  {
    hide FindPayment, FindTx;
  }

  /**
   * Several events of one purchase, delivered under different identifiers and by any channels,
   * with anything in between: once its key has been granted, the grant is only ever replayed.
   */
  lemma OneGrantPerPurchase(products: map<string, Product>, s: Store, d: Delivery, between: seq<Op>, again: Delivery)
    requires Consistent(s) && ReachedGrant(Record(products, s, d).1)
    requires again.user == d.user && again.grantKey == d.grantKey
    requires Lookup(products, again.productId).Some?
    requires Lookup(products, again.productId).value.credits == Lookup(products, d.productId).value.credits
    requires ReachedGrant(Record(products, Run(products, Record(products, s, d).0, between), again).1)
    ensures var later := Run(products, Record(products, s, d).0, between);
            var (after, answer) := Record(products, later, again);
            && answer == Recorded(Replayed, 0, AtGrant)
            && after.books.rows == later.books.rows
            && forall u: nat :: Balance(after.books, u) == Balance(later.books, u)
  {
    hide Sound, Reversals, NoneReceived, UniqueExternals, Linked, GrantedTotal, JournalTotal, FindPayment;
    var first := Record(products, s, d).0;
    var later := Run(products, first, between);
    RecordKeeps(products, s, d);
    EveryRunIsConsistent(products, first, between);
    RunGrows(products, first, between);
    var t := GrantTx(d, Lookup(products, d.productId).value);
    GrantedRow(products, s, d);
    RowInPrefix(first.books.rows, later.books.rows, t);
    AlwaysReplays(later.books, GrantTx(again, Lookup(products, again.productId).value), t);
  }

  lemma GrantedRow(products: map<string, Product>, s: Store, d: Delivery)
    requires ReachedGrant(Record(products, s, d).1)
    ensures d.grantKey.Some? && Lookup(products, d.productId).Some?
    ensures HasRow(Record(products, s, d).0.books.rows, GrantTx(d, Lookup(products, d.productId).value))
  {
    hide FindPayment, Allowed;
    var t := GrantTx(d, Lookup(products, d.productId).value);
    var (after, r) := Move(s.books, t);
    assert IsRow(after.rows[r.tx], t);
  }

  lemma RowInPrefix(a: seq<Tx>, b: seq<Tx>, t: Tx)
    requires a <= b && HasRow(a, t)
    ensures HasRow(b, t)
  {
    var i :| 0 <= i < |a| && IsRow(a[i], t);
    assert b[i] == a[i];
  }

  lemma AlwaysReplays(b: Books, t: Tx, earlier: Tx)
    requires Sound(b) && HasRow(b.rows, earlier) && t.amount > 0
    requires t.user == earlier.user && t.kind == earlier.kind && t.amount == earlier.amount && t.key == earlier.key
    ensures Move(b, t).1.Done? && Move(b, t).1.replay
    ensures Move(b, t).0.rows == b.rows
    ensures forall u: nat :: Balance(Move(b, t).0, u) == Balance(b, u)
  {
    hide Sound;
    var i :| 0 <= i < |b.rows| && IsRow(b.rows[i], earlier);
    assert IsRow(b.rows[i], t);
    MoveOutcomes(b, t);
    forall u: nat ensures Balance(Move(b, t).0, u) == Balance(b, u) { MoveEffect(b, t, u); }
  }

  // ------------------------------------------------------------------ reversals

  /** In every reachable state a grant has at most one reversal, a debit of at most its amount. */
  lemma OneReversalPerGrant(products: map<string, Product>, ops: seq<Op>, i: nat, j: nat)
    requires i < |Run(products, EMPTY, ops).books.rows| && j < |Run(products, EMPTY, ops).books.rows|
    requires var rows := Run(products, EMPTY, ops).books.rows;
             rows[i].key.RefundKey? && rows[i].key == rows[j].key && rows[i].user == rows[j].user
    ensures i == j
    ensures var rows := Run(products, EMPTY, ops).books.rows;
            rows[i].kind.Debit? && exists g :: 0 <= g < i && IsGrantOf(rows[g], rows[i])
  {
    hide Run, IsGrantOf, Linked, Balanced, GrantedTotal, JournalTotal, NoneReceived, UniqueExternals;
    NothingIsConsistent();
    EveryRunIsConsistent(products, EMPTY, ops);
    var rows := Run(products, EMPTY, ops).books.rows;
    FindUnique(rows, rows[i].user, rows[i].key, i);
    FindUnique(rows, rows[i].user, rows[i].key, j);
  }

  /** A refund event that is taken up. */
  predicate IsTaken(s: Store, e: RefundEvent) {
    e.productId.Some? && !Known(s.payments, e.channel, e.externalId)
  }

  /** What the credits before the `j`-th still have to take, and the balance beyond it. */
  function LeftFor(s: Store, e: RefundEvent, j: nat): int
    requires j <= |CreditsOf(s, e)|
  {
    Balance(s.books, e.user) - Unreversed(s.books.rows, CreditsOf(s, e), j)
  }

  /** The loop takes what is there, first come first served, and no more. */
  lemma {:induction false} ReverseFirstTakes(b: Books, user: nat, credits: seq<Tx>, k: nat)
    requires SoundRows(b) && AreCredits(b.rows, user, credits) && k <= |credits|
    ensures ReverseFirst(b, credits, k).revoked == Min(Balance(b, user), Unreversed(b.rows, credits, k))
  {
    hide SoundRows, JournalTotal, HasKey, ReverseOne, Move, Balance, Take, Unreversed;
    if k == 0 {
      NothingTaken(b, user, credits);
    } else {
      ReverseFirstTakes(b, user, credits, k - 1);
      ReverseFirstConserves(b, user, credits, k - 1);
      NextUnreversed(b.rows, credits, k);
      OneTakes(ReverseFirst(b, credits, k - 1), credits[k - 1]);
      assert Balance(b, user) >= 0 by { SoundRowsBalance(b, user); }
    }
  }

  /** One round takes the credit or what is left of the balance. */
  lemma OneTakes(t: Tally, c: Tx)
    requires Balance(t.books, c.user) >= 0 && c.amount > 0
    ensures ReverseOne(t, c).revoked == t.revoked +
              if HasKey(t.books.rows, c.user, RefundKey(c.key)) then 0 else Min(c.amount, Balance(t.books, c.user))
  {
    hide Move, HasKey;
  }

  lemma NothingTaken(b: Books, user: nat, credits: seq<Tx>)
    requires SoundRows(b)
    ensures ReverseFirst(b, credits, 0).revoked == Min(Balance(b, user), Unreversed(b.rows, credits, 0)) == 0
  {
    hide Reversals;
    SoundBalance(b, user);
  }

  lemma SoundRowsBalance(b: Books, user: nat)
    requires SoundRows(b)
    ensures Balance(b, user) >= 0
  {}

  lemma NextUnreversed(rows: seq<Tx>, credits: seq<Tx>, k: nat)
    requires 0 < k <= |credits|
    ensures Unreversed(rows, credits, k) == Unreversed(rows, credits, k - 1) +
              if HasKey(rows, credits[k - 1].user, RefundKey(credits[k - 1].key)) then 0 else credits[k - 1].amount
  {}

  /** The credits reversed by the loop are those whose turn came while there was something to take. */
  lemma {:induction false} ReversedByLoop(b: Books, user: nat, credits: seq<Tx>, k: nat, j: nat)
    requires SoundRows(b) && AreCredits(b.rows, user, credits) && j < k <= |credits|
    ensures HasKey(ReverseFirst(b, credits, k).books.rows, user, RefundKey(credits[j].key)) <==>
              HasKey(b.rows, user, RefundKey(credits[j].key)) || Balance(b, user) > Unreversed(b.rows, credits, j)
  {
    hide SoundRows, JournalTotal, HasKey, ReverseOne, Move, Balance, Take, Unreversed, ReverseFirst;
    var key := RefundKey(credits[j].key);
    ReverseFirstConserves(b, user, credits, k - 1);
    var t := ReverseFirst(b, credits, k - 1);
    RowsOfRound(b, user, credits, k - 1);
    if j < k - 1 {
      ReversedByLoop(b, user, credits, k - 1, j);
      if ReverseFirst(b, credits, k).books.rows != t.books.rows {
        OtherKey(t.books.rows, ReversalTx(t.books, credits[k - 1]), user, key);
      }
    } else {
      ReverseFirstTakes(b, user, credits, j);
      if ReverseFirst(b, credits, k).books.rows != t.books.rows {
        LastKey(t.books.rows, ReversalTx(t.books, credits[k - 1]));
      }
    }
  }

  /** The row, if any, of one round. */
  lemma RowsOfRound(b: Books, user: nat, credits: seq<Tx>, k: nat)
    requires SoundRows(b) && AreCredits(b.rows, user, credits) && k < |credits|
    ensures var t := ReverseFirst(b, credits, k);
            && credits[k].user == user
            && ReverseFirst(b, credits, k + 1).books.rows ==
               if !HasKey(t.books.rows, user, RefundKey(credits[k].key)) && Balance(t.books, user) > 0
               then t.books.rows + [ReversalTx(t.books, credits[k])] else t.books.rows
  {
    hide SoundRows, JournalTotal, HasKey, ReverseOne, Move, Balance, Take;
    var t := ReverseFirst(b, credits, k);
    var c := credits[k];
    ReverseFirstConserves(b, user, credits, k);
    if HasKey(t.books.rows, user, RefundKey(c.key)) {
      AlreadyReversed(t, c);
    } else {
      assert c in t.books.rows by { assert c in b.rows; InPrefix(b.rows, t.books.rows, c); }
      ReverseOneMoves(t, c);
    }
  }

  lemma LastKey(rows: seq<Tx>, t: Tx)
    ensures HasKey(rows + [t], t.user, t.key)
  {
    assert (rows + [t])[|rows|] == t;
  }

  lemma CreditsAre(s: Store, e: RefundEvent)
    requires Consistent(s)
    ensures SoundRows(s.books) && AreCredits(s.books.rows, e.user, CreditsOf(s, e))
  {
    hide Reversals, NoneReceived, UniqueExternals, Linked, GrantedTotal, JournalTotal, Matched, Balanced;
    MatchedAreCredits(s.books.rows, e.user, KeysOf(e.grantKeys));
  }

  lemma TakenIs(s: Store, e: RefundEvent)
    requires IsTaken(s, e)
    ensures var credits := CreditsOf(s, e);
            var t := ReverseFirst(s.books, credits, |credits|);
            TakeBack(s, e).0.books == t.books && TakeBack(s, e).1 == Reversed(t.revoked, t.notRecovered, |credits|)
  {
    hide FindPayment, ReverseFirst, Matched;
  }

  /**
   * WHAT A REFUND TAKES. Of all the credits of the purchase that have no reversal yet, as much as the
   * balance holds; the rest is written off.
   */
  lemma RefundTakes(s: Store, e: RefundEvent)
    requires Consistent(s) && IsTaken(s, e)
    ensures var credits := CreditsOf(s, e);
            var open := Unreversed(s.books.rows, credits, |credits|);
            TakeBack(s, e).1 == Reversed(Min(Balance(s.books, e.user), open),
                                         open - Min(Balance(s.books, e.user), open), |credits|)
  {
    hide Consistent, SoundRows, AreCredits, ReverseFirst, TakeBack, Matched, Unreversed, Balance, IsTaken;
    var credits := CreditsOf(s, e);
    CreditsAre(s, e);
    TakenIs(s, e);
    ReverseFirstTakes(s.books, e.user, credits, |credits|);
    ReverseFirstConserves(s.books, e.user, credits, |credits|);
  }

  /** A grant has its reversal after a refund exactly if it had it, or something was left at its turn. */
  lemma ReversalRowIff(s: Store, e: RefundEvent, j: nat)
    requires Consistent(s) && IsTaken(s, e) && j < |CreditsOf(s, e)|
    ensures var key := RefundKey(CreditsOf(s, e)[j].key);
            HasKey(TakeBack(s, e).0.books.rows, e.user, key) <==>
              HasKey(s.books.rows, e.user, key) || LeftFor(s, e, j) > 0
  {
    hide Consistent, SoundRows, AreCredits, ReverseFirst, TakeBack, Matched, Unreversed, Balance, IsTaken, HasKey;
    CreditsAre(s, e);
    TakenIs(s, e);
    ReversedByLoop(s.books, e.user, CreditsOf(s, e), |CreditsOf(s, e)|, j);
  }

  /** A refund takes something exactly if some grant of the purchase has no reversal and there is a balance. */
  lemma RevokedIff(s: Store, e: RefundEvent)
    requires Consistent(s) && IsTaken(s, e)
    ensures TakeBack(s, e).1.Reversed?
    ensures TakeBack(s, e).1.revoked > 0 <==>
              Balance(s.books, e.user) > 0 &&
              exists j :: 0 <= j < |CreditsOf(s, e)| &&
                          !HasKey(s.books.rows, e.user, RefundKey(CreditsOf(s, e)[j].key))
  {
    hide Consistent, SoundRows, TakeBack, Matched, Unreversed, Balance, IsTaken, HasKey;
    CreditsAre(s, e);
    RefundTakes(s, e);
    OpenIff(s.books.rows, e.user, CreditsOf(s, e), |CreditsOf(s, e)|);
  }

  lemma {:induction false} OpenIff(rows: seq<Tx>, user: nat, credits: seq<Tx>, k: nat)
    requires AreCredits(rows, user, credits) && k <= |credits|
    ensures Unreversed(rows, credits, k) >= 0
    ensures Unreversed(rows, credits, k) > 0 <==>
              exists j :: 0 <= j < k && !HasKey(rows, user, RefundKey(credits[j].key))
  {
    hide HasKey;
    if k > 0 { OpenIff(rows, user, credits, k - 1); }
  }

  predicate IsReversalOf(t: Tx, credits: seq<Tx>, user: nat) {
    t.kind.Debit? && t.user == user && exists j :: 0 <= j < |credits| && t.key == RefundKey(credits[j].key)
  }

  /** The rows that the loop adds are reversals, and there are some exactly if it took something. */
  lemma {:induction false} NewRowsAreReversals(b: Books, user: nat, credits: seq<Tx>, k: nat)
    requires SoundRows(b) && AreCredits(b.rows, user, credits) && k <= |credits|
    ensures var t := ReverseFirst(b, credits, k);
            && b.rows <= t.books.rows && t.revoked >= 0 && (t.revoked > 0 <==> |t.books.rows| > |b.rows|)
            && forall i :: |b.rows| <= i < |t.books.rows| ==> IsReversalOf(t.books.rows[i], credits, user)
  {
    hide SoundRows, JournalTotal, HasKey, Move, Balance, ReverseOne, ReverseFirst;
    if k == 0 {
      assert ReverseFirst(b, credits, 0) == Tally(b, 0, 0) by { NoneReversed(b, credits); }
    } else {
      NewRowsAreReversals(b, user, credits, k - 1);
      RowsOfRound(b, user, credits, k - 1);
      RoundTakes(b, user, credits, k - 1);
    }
  }

  lemma NoneReversed(b: Books, credits: seq<Tx>)
    ensures ReverseFirst(b, credits, 0) == Tally(b, 0, 0)
  {}

  lemma RoundTakes(b: Books, user: nat, credits: seq<Tx>, k: nat)
    requires SoundRows(b) && AreCredits(b.rows, user, credits) && k < |credits|
    ensures var t, more := ReverseFirst(b, credits, k), ReverseFirst(b, credits, k + 1);
            && more.revoked >= t.revoked
            && (more.revoked > t.revoked <==>
                  !HasKey(t.books.rows, user, RefundKey(credits[k].key)) && Balance(t.books, user) > 0)
  {
    hide SoundRows, JournalTotal, HasKey, Move, Balance, ReverseOne;
    ReverseFirstConserves(b, user, credits, k);
    var t := ReverseFirst(b, credits, k);
    assert credits[k].user == user && credits[k].amount > 0;
    SoundRowsBalance(t.books, user);
    OneTakes(t, credits[k]);
    assert ReverseFirst(b, credits, k + 1) == ReverseOne(t, credits[k]);
  }

  /** The journal's row of a refund carries no credits, and names one of its reversals exactly if there is one. */
  lemma RefundRowNamesReversal(s: Store, e: RefundEvent)
    requires Consistent(s) && IsTaken(s, e)
    ensures var (after, answer) := TakeBack(s, e);
            && |after.payments| == |s.payments| + 1 && after.payments[..|s.payments|] == s.payments
            && var row := after.payments[|s.payments|];
               && row.status.Refunded? && row.credits == 0 && row.user == e.user
               && answer.Reversed? && (row.tx.Some? <==> answer.revoked > 0)
               && (row.tx.Some? ==>
                     && |s.books.rows| <= row.tx.value < |after.books.rows|
                     && IsReversalOf(after.books.rows[row.tx.value], CreditsOf(s, e), e.user))
  {
    hide Consistent, SoundRows, AreCredits, ReverseFirst, Matched, FindPayment, IsReversalOf;
    CreditsAre(s, e);
    NewRowsAreReversals(s.books, e.user, CreditsOf(s, e), |CreditsOf(s, e)|);
    NotKnown(s, e);
  }

  lemma NotKnown(s: Store, e: RefundEvent)
    requires IsTaken(s, e)
    ensures FindPayment(s.payments, e.channel, e.externalId) == |s.payments|
  {}

  /** Exactly when a refund event is refused, and when it is known. */
  lemma RefundAnswers(s: Store, e: RefundEvent)
    ensures TakeBack(s, e).1.RefundRaised? <==> e.productId.None?
    ensures TakeBack(s, e).1.AlreadyKnown? <==> e.productId.Some? && Known(s.payments, e.channel, e.externalId)
    ensures !IsTaken(s, e) ==> TakeBack(s, e).0 == s
  {
    hide FindPayment, ReverseFirst, Matched;
  }

  // ------------------------------------------------------------------ two refund events

  /** An operation that is no refund of this grant. */
  predicate Spares(op: Op, user: nat, key: Key) {
    op.Reverse? ==> op.e.user != user || key !in KeysOf(op.e.grantKeys)
  }

  lemma {:induction false} OtherReversals(b: Books, credits: seq<Tx>, k: nat, user: nat, key: Key)
    requires k <= |credits| && forall c :: c in credits ==> c.user != user || RefundKey(c.key) != key
    ensures HasKey(ReverseFirst(b, credits, k).books.rows, user, key) <==> HasKey(b.rows, user, key)
  {
    if k > 0 {
      hide HasKey, Take, Move;
      OtherReversals(b, credits, k - 1, user, key);
      OtherReversal(ReverseFirst(b, credits, k - 1), credits[k - 1], user, key);
    }
  }

  lemma OtherReversal(t: Tally, c: Tx, user: nat, key: Key)
    requires c.user != user || RefundKey(c.key) != key
    ensures HasKey(ReverseOne(t, c).books.rows, user, key) <==> HasKey(t.books.rows, user, key)
  {
    hide HasKey, Move, Take;
    var r := ReversalTx(t.books, c);
    MoveEffect(t.books, r, user) by { hide *; }
    if ReverseOne(t, c).books.rows != t.books.rows { OtherKey(t.books.rows, r, user, key); }
  }

  lemma SparingKeeps(products: map<string, Product>, s: Store, op: Op, user: nat, key: Key)
    requires Spares(op, user, key)
    ensures HasKey(Step(products, s, op).books.rows, user, RefundKey(key)) <==>
            HasKey(s.books.rows, user, RefundKey(key))
  {
    hide FindPayment, FindTx, HasKey, Allowed, ReverseFirst;
    if op.Reverse? {
      OtherReversals(s.books, CreditsOf(s, op.e), |CreditsOf(s, op.e)|, user, RefundKey(key));
    } else {
      hide TakeBack;
      var after := Step(products, s, op).books.rows;
      if |after| > |s.books.rows| {
        var t := after[|s.books.rows|];
        assert after == s.books.rows + [t];
        OtherKey(s.books.rows, t, user, RefundKey(key));
      }
    }
  }

  lemma {:induction false} SparingRunKeeps(products: map<string, Product>, s: Store, ops: seq<Op>, user: nat, key: Key)
    requires forall op :: op in ops ==> Spares(op, user, key)
    ensures HasKey(Run(products, s, ops).books.rows, user, RefundKey(key)) <==>
            HasKey(s.books.rows, user, RefundKey(key))
  {
    hide Step, HasKey, Spares;
    if |ops| > 0 {
      SparingRunKeeps(products, s, ops[..|ops| - 1], user, key);
      SparingKeeps(products, Run(products, s, ops[..|ops| - 1]), ops[|ops| - 1], user, key);
    }
  }

  /** The state in which a second event arrives. */
  function AtSecond(products: map<string, Product>, s: Store, e: RefundEvent, between: seq<Op>): Store {
    Run(products, TakeBack(s, e).0, between)
  }

  /**
   * "REVERSED EXACTLY ONCE", EXACTLY. Two refund events match one grant, among any others, and no
   * refund in between matches it. The second one writes its reversal if and only if nothing was
   * left at the grant's turn in the first, and something is at its turn in the second.
   */
  lemma SecondRefundEvent(products: map<string, Product>, s: Store, e: RefundEvent, j: nat,
                          between: seq<Op>, again: RefundEvent, k: nat)
    requires Consistent(s) && IsTaken(s, e) && j < |CreditsOf(s, e)|
    requires !HasKey(s.books.rows, e.user, RefundKey(CreditsOf(s, e)[j].key))
    requires forall op :: op in between ==> Spares(op, e.user, CreditsOf(s, e)[j].key)
    requires var later := AtSecond(products, s, e, between);
             && again.user == e.user && IsTaken(later, again)
             && k < |CreditsOf(later, again)| && CreditsOf(later, again)[k] == CreditsOf(s, e)[j]
    ensures var later := AtSecond(products, s, e, between);
            var key := RefundKey(CreditsOf(s, e)[j].key);
            && (HasKey(later.books.rows, e.user, key) <==> LeftFor(s, e, j) > 0)
            && (HasKey(TakeBack(later, again).0.books.rows, e.user, key) && !HasKey(later.books.rows, e.user, key) <==>
                  LeftFor(s, e, j) <= 0 && LeftFor(later, again, k) > 0)
  {
    hide Consistent, IsTaken, HasKey, TakeBack, Run, Net, LeftFor, Matched, Spares;
    var first := TakeBack(s, e).0;
    TakeBackKeeps(s, e);
    EveryRunIsConsistent(products, first, between);
    ReversalRowIff(s, e, j);
    SparingRunKeeps(products, first, between, e.user, CreditsOf(s, e)[j].key);
    ReversalRowIff(AtSecond(products, s, e, between), again, k);
  }

  lemma FirstOfOne(b: Books, credit: Tx)
    ensures ReverseFirst(b, [credit], 1) == ReverseOne(Tally(b, 0, 0), credit)
  {
    hide ReverseOne;
    assert ReverseFirst(b, [credit], 0) == Tally(b, 0, 0);
  }

  // ------------------------------------------------------------------ the failing case

  const CATALOGUE := map["pack" := Product(10, {"shop"})]
  const BUY := Delivery(1, "shop", "e1", Tokens, Some("pack"), Some("t1"))
  const SPEND := Charge(1, 10, 7)
  const BUY_AGAIN := Delivery(1, "shop", "e2", Tokens, Some("pack"), Some("t2"))
  const FIRST_REFUND := RefundEvent(1, "shop", "r1", Some("pack"), ["t1"])
  const SECOND_REFUND := RefundEvent(1, "other", "r2", Some("pack"), ["t1"])

  const GRANT1 := Tx(1, Credit, 10, GrantKey("t1"), ByJournal)
  const DEBIT1 := Tx(1, Debit, 10, GenerationKey(7), ForGeneration)
  const GRANT2 := Tx(1, Credit, 10, GrantKey("t2"), ByJournal)

  /**
   * "Reversed exactly once" fails for a grant that was fully spent: the first refund event leaves
   * no reversal, and a second one takes credits bought later.
   */
  lemma SpentGrantIsReversedLater()
    ensures var spent := Run(CATALOGUE, EMPTY, [Pay(BUY), SPEND]);
            var (refunded, answer) := TakeBack(spent, FIRST_REFUND);
            && answer == Reversed(0, 10, 1)
            && TakeBack(Step(CATALOGUE, refunded, Pay(BUY_AGAIN)), SECOND_REFUND).1 == Reversed(10, 0, 1)
  {
    hide Record, TakeBack, Move, Run, Step, Balance, FindPayment;
    SpentState();
    var spent := Run(CATALOGUE, EMPTY, [Pay(BUY), SPEND]);
    RefundOfFirst(spent, FIRST_REFUND, [DEBIT1], 0);
    var refunded := TakeBack(spent, FIRST_REFUND).0;
    MoveFresh(refunded.books, GRANT2);
    Purchase(refunded, BUY_AGAIN, "t2");
    var later := Record(CATALOGUE, refunded, BUY_AGAIN).0;
    assert later == Step(CATALOGUE, refunded, Pay(BUY_AGAIN)) by { StepOfPay(CATALOGUE, refunded, BUY_AGAIN); }
    assert later.books.rows == [GRANT1] + [DEBIT1, GRANT2];
    RefundOfFirst(later, SECOND_REFUND, [DEBIT1, GRANT2], 10);
  }

  lemma StepOfPay(products: map<string, Product>, s: Store, d: Delivery)
    ensures Step(products, s, Pay(d)) == Record(products, s, d).0
  {}

  /** A purchase spent in full. */
  lemma SpentState()
    ensures var spent := Run(CATALOGUE, EMPTY, [Pay(BUY), SPEND]);
            && spent.books.rows == [GRANT1] + [DEBIT1] && Balance(spent.books, 1) == 0
            && forall p :: p in spent.payments ==> p.externalId == "e1"
  {
    hide Record, Move;
    RunOfTwo(CATALOGUE, EMPTY, Pay(BUY), SPEND);
    var bought := Record(CATALOGUE, EMPTY, BUY).0;
    MoveFresh(EMPTY.books, GRANT1);
    Purchase(EMPTY, BUY, "t1");
    assert EMPTY.books.rows + [GRANT1] == [GRANT1];
    MoveFresh(bought.books, DEBIT1);
  }

  lemma RunOfTwo(products: map<string, Product>, s: Store, first: Op, second: Op)
    ensures Run(products, s, [first, second]) == Step(products, Step(products, s, first), second)
  {
    hide Step;
    assert [first, second][..1] == [first];
    assert [first][..0] == [];
    assert Run(products, s, []) == s;
  }

  lemma MoveFresh(b: Books, t: Tx)
    requires t.amount > 0 && (t.kind.Debit? ==> t.amount <= Balance(b, t.user))
    requires forall r :: r in b.rows ==> r.key != t.key
    ensures Move(b, t).1 == Done(false, |b.rows|, Balance(b, t.user) + Signed(t))
    ensures Move(b, t).0.rows == b.rows + [t]
    ensures Balance(Move(b, t).0, t.user) == Balance(b, t.user) + Signed(t)
  {
    assert !HasKey(b.rows, t.user, t.key);
    FreshMove(b, t);
    MoveEffect(b, t, t.user);
  }

  lemma Purchase(s: Store, d: Delivery, name: string)
    requires d.productId == Some("pack") && d.channel == "shop" && d.grantKey == Some(name)
    requires d.kind.Tokens? && d.user == 1
    requires forall p :: p in s.payments ==> p.externalId != d.externalId
    requires Move(s.books, Tx(1, Credit, 10, GrantKey(name), ByJournal)).1.Done?
    ensures Record(CATALOGUE, s, d).0.books == Move(s.books, Tx(1, Credit, 10, GrantKey(name), ByJournal)).0
    ensures exists p: Payment :: p.externalId == d.externalId && Record(CATALOGUE, s, d).0.payments == s.payments + [p]
  {
    hide Move;
  }

  lemma RefundOfFirst(s: Store, e: RefundEvent, rest: seq<Tx>, taken: int)
    requires e.user == 1 && e.productId.Some? && e.grantKeys == ["t1"]
    requires forall p :: p in s.payments ==> p.externalId != e.externalId
    requires s.books.rows == [GRANT1] + rest && taken == Balance(s.books, 1) && 0 <= taken <= 10
    requires forall t :: t in rest ==> t.key != GRANT1.key && !t.key.RefundKey?
    ensures TakeBack(s, e).1 == Reversed(taken, 10 - taken, 1)
    ensures exists p: Payment :: p.externalId == e.externalId && TakeBack(s, e).0.payments == s.payments + [p]
    ensures taken == 0 ==> TakeBack(s, e).0.books == s.books
  {
    OneMatch([GRANT1], GRANT1, rest, "t1");
    FirstOfOne(s.books, GRANT1);
    hide Move, Take, ReverseFirst, Matched, Balance;
    assert !HasKey(s.books.rows, 1, RefundKey(GRANT1.key));
  }

  lemma {:induction false} OneMatch(front: seq<Tx>, g: Tx, rest: seq<Tx>, name: string)
    requires front == [g] && g.user == 1 && g.kind.Credit? && g.key == GrantKey(name)
    requires forall t :: t in rest ==> t.key != g.key
    ensures Matched(front + rest, 1, KeysOf([name])) == [g]
  {
    if |rest| == 0 {
      assert front + rest == [g];
      assert [g][..0] == [];
      assert Matched([], 1, KeysOf([name])) == [];
    } else {
      OneMatch(front, g, rest[..|rest| - 1], name);
      assert (front + rest)[..|front + rest| - 1] == front + rest[..|rest| - 1];
      assert (front + rest)[|front + rest| - 1] == rest[|rest| - 1];
      assert rest[|rest| - 1] in rest;
    }
  }

  // ------------------------------------------------------------------ the journal

  /** `apple_grant_keys`. */
  function AppleGrantKeys(transactionId: string): seq<string> {
    ["sub-grant:" + transactionId, "token-purchase:" + transactionId, "adapty-txn:" + transactionId]
  }

  /** Whichever channel credited an Apple purchase, and as which kind, its refund finds the credit. */
  lemma AppleRefundFindsEveryGrant(s: Store, e: RefundEvent, transactionId: string, credit: Tx)
    requires e.grantKeys == AppleGrantKeys(transactionId)
    requires credit in s.books.rows && credit.user == e.user && credit.kind.Credit?
    requires credit.key in {GrantKey("sub-grant:" + transactionId), GrantKey("token-purchase:" + transactionId),
                            GrantKey("adapty-txn:" + transactionId)}
    ensures credit in CreditsOf(s, e)
  {
    hide Matched;
    assert e.grantKeys[0] in e.grantKeys && e.grantKeys[1] in e.grantKeys && e.grantKeys[2] in e.grantKeys;
    assert credit.key in KeysOf(e.grantKeys);
  }

  /** `PaymentsJournal`: each method is one transaction over its table and the wallet's. */
  class PaymentsJournal {
    const products: map<string, Product>
    const wallet: WalletService
    var payments: seq<Payment>

    ghost function State(): Store
      reads this, wallet
    {
      Store(wallet.State(), payments)
    }

    constructor (products: map<string, Product>, wallet: WalletService)
      ensures this.products == products && this.wallet == wallet && payments == []
    {
      this.products, this.wallet, payments := products, wallet, [];
    }

    /** Layer one: a neutral row, or nothing when the delivery is known. */
    method InsertReceived(row: Payment) returns (inserted: bool, at: nat)
      modifies this`payments
      ensures at == FindPayment(old(payments), row.channel, row.externalId)
      ensures inserted == (at == |old(payments)|)
      ensures payments == if inserted then old(payments) + [row] else old(payments)
    {
      at := FindPayment(payments, row.channel, row.externalId);
      inserted := at == |payments|;
      if inserted { payments := payments + [row]; }
    }

    method Finalize(at: nat, status: Status, credits: int, tx: Option<nat>)
      requires at < |payments|
      modifies this`payments
      ensures payments == old(payments)[at := old(payments)[at].(status := status, credits := credits, tx := tx)]
      ensures forall rows, row :: old(payments) == rows + [row] && at == |rows| ==>
                payments == rows + [row.(status := status, credits := credits, tx := tx)]
    {
      payments := payments[at := payments[at].(status := status, credits := credits, tx := tx)];
    }

    /** `record_and_grant`, with the rollback of the caller's transaction on an error. */
    method RecordAndGrant(d: Delivery) returns (answer: Answer)
      modifies this`payments, wallet
      ensures (State(), answer) == Record(products, old(State()), d)
    {
      hide FindPayment, Move;
      var saved := payments;
      if !d.kind.SubscriptionEvent? && d.productId.None? {
        return Raised;
      }
      var inserted, at := InsertReceived(RowOf(d, Received, 0, None));
      if !inserted {
        return Recorded(Replayed, 0, AtDelivery);
      }
      var product := Lookup(products, d.productId);
      if !d.kind.SubscriptionEvent? {
        if product.None? || d.channel !in product.value.channels {
          Finalize(at, Rejected, 0, None);
          return Recorded(Rejected, 0, NoLayer);
        }
      }
      if d.grantKey.None? || product.None? {
        Finalize(at, NoGrant, 0, None);
        return Recorded(NoGrant, 0, NoLayer);
      }
      var credits := product.value.credits;
      var r := wallet.Grant(d.user, credits, GrantKey(d.grantKey.value), ByJournal);
      if !r.Done? {
        payments := saved;
        RefusalChangesNothing(old(wallet.State()), GrantTx(d, product.value));
        return Raised;
      }
      var status := if r.replay then Replayed else Granted;
      var granted := if r.replay then 0 else credits;
      Finalize(at, status, granted, Some(r.tx));
      answer := Recorded(status, granted, if r.replay then AtGrant else NoLayer);
    }

    /** The loop that takes back one credit after another, never below zero. */
    method ReverseCredits(user: nat, credits: seq<Tx>)
      returns (revoked: int, notRecovered: int, lastTx: Option<nat>)
      requires SoundRows(wallet.State()) && AreCredits(wallet.rows, user, credits)
      modifies wallet
      ensures Tally(wallet.State(), revoked, notRecovered) == ReverseFirst(old(wallet.State()), credits, |credits|)
      ensures lastTx == if revoked > 0 && |wallet.rows| > 0 then Some(|wallet.rows| - 1) else None
    {
      hide Move, SoundRows, AreCredits, ReverseFirst, HasKey;
      ghost var before := wallet.State();
      revoked, notRecovered, lastTx := 0, 0, None;
      StartReversing(before, credits);
      for k := 0 to |credits|
        invariant Tally(wallet.State(), revoked, notRecovered) == ReverseFirst(before, credits, k)
        invariant lastTx == if revoked > 0 then Some(|wallet.rows| - 1) else None
        invariant revoked > 0 ==> |wallet.rows| > 0
        invariant revoked >= 0
      {
        ReverseNext(before, user, credits, k);
        var already := FindTx(wallet.rows, user, RefundKey(credits[k].key)) < |wallet.rows|;
        if !already {
          var balance := if user in wallet.balances then wallet.balances[user] else 0;
          var take := if credits[k].amount <= balance then credits[k].amount else balance;
          notRecovered := notRecovered + credits[k].amount - take;
          if take > 0 {
            var debit := wallet.Consume(user, take, RefundKey(credits[k].key), ForRefund);
            revoked := revoked + take;
            lastTx := Some(debit.tx);
          }
        }
      }
    }

    /** `record_refund`, with the rollback of the caller's transaction on an error. */
    method RecordRefund(e: RefundEvent) returns (answer: RefundAnswer)
      requires Consistent(State())
      modifies this`payments, wallet
      ensures (State(), answer) == TakeBack(old(State()), e)
    {
      hide FindPayment, Move, Matched, Sound, Reversals, NoneReceived, UniqueExternals, Linked, HasKey;
      hide GrantedTotal, JournalTotal, ReverseFirst;
      if e.productId.None? {
        return RefundRaised;
      }
      var inserted, at := InsertReceived(RefundRow(e, None).(status := Received));
      if !inserted {
        return AlreadyKnown;
      }
      var credits := Matched(wallet.rows, e.user, KeysOf(e.grantKeys));
      MatchedAreCredits(wallet.rows, e.user, KeysOf(e.grantKeys)) by { SoundParts(wallet.State()); }
      var revoked, notRecovered, lastTx := ReverseCredits(e.user, credits);
      payments := payments[at := payments[at].(status := Refunded, tx := lastTx)];
      assert payments == old(payments) + [RefundRow(e, lastTx)];
      answer := Reversed(revoked, notRecovered, |credits|);
    }
  }

  lemma StartReversing(b: Books, credits: seq<Tx>)
    ensures ReverseFirst(b, credits, 0) == Tally(b, 0, 0)
  {}

  /** One round of the loop, in the terms the program uses. */
  lemma ReverseNext(b: Books, user: nat, credits: seq<Tx>, k: nat)
    requires SoundRows(b) && AreCredits(b.rows, user, credits) && k < |credits|
    ensures var t := ReverseFirst(b, credits, k);
            var c := credits[k];
            var already := FindTx(t.books.rows, user, RefundKey(c.key)) < |t.books.rows|;
            var take := if c.amount <= Balance(t.books, user) then c.amount else Balance(t.books, user);
            var (books, r) := Move(t.books, Tx(user, Debit, take, RefundKey(c.key), ForRefund));
            && credits[k].user == user
            && (!already && take > 0 ==> r == Done(false, |t.books.rows|, Balance(t.books, user) - take))
            && (!already && take > 0 ==> |books.rows| == |t.books.rows| + 1)
            && ReverseFirst(b, credits, k + 1) ==
               if already then t
               else if take > 0 then Tally(books, t.revoked + take, t.notRecovered + c.amount - take)
               else t.(notRecovered := t.notRecovered + c.amount - take)
  {
    hide SoundRows, Move, JournalTotal, Balance;
    var t := ReverseFirst(b, credits, k);
    var c := credits[k];
    ReverseFirstConserves(b, user, credits, k);
    assert c in t.books.rows by { assert c in b.rows; InPrefix(b.rows, t.books.rows, c); }
    var at := FindTx(t.books.rows, user, RefundKey(c.key));
    if at < |t.books.rows| {
      assert HasKey(t.books.rows, user, RefundKey(c.key));
    } else {
      ReverseOneMoves(t, c);
      MoveEffect(t.books, ReversalTx(t.books, c), user);
    }
  }
}
