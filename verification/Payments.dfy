/** The payments journal: two layers of idempotency, and reversals that conserve credits. */
module Payments {
  import opened Strings
  import opened Wallet

  datatype Product = Product(credits: int, channels: set<string>)

  datatype PaymentKind = Subscription | Tokens | SubscriptionEvent | Refund

  datatype Status = Received | Granted | Replayed | NoGrant | Rejected | Refunded

  /** A row of `payments`. */
  datatype Payment = Payment(user: nat, channel: string, externalId: string, kind: PaymentKind,
                             productId: Option<string>, status: Status, credits: int, tx: Option<nat>)

  /** One verified payment event of a channel. */
  datatype Delivery = Delivery(user: nat, channel: string, externalId: string, kind: PaymentKind,
                               productId: Option<string>, grantKey: Option<string>)

  /** One verified refund event, with every key the purchase may have been granted under. */
  datatype RefundEvent = RefundEvent(user: nat, channel: string, externalId: string,
                                     productId: Option<string>, grantKeys: seq<string>)

  datatype Layer = AtDelivery | AtGrant | NoLayer

  datatype Answer = Raised | Recorded(status: Status, credits: int, layer: Layer)

  datatype RefundAnswer = RefundRaised | AlreadyKnown | Reversed(revoked: int, notRecovered: int, found: nat)

  datatype Store = Store(books: Books, payments: seq<Payment>)

  // ------------------------------------------------------------------ recording a payment

  function FindPayment(payments: seq<Payment>, channel: string, externalId: string): (at: nat)
    ensures at <= |payments|
    ensures at < |payments| ==> payments[at].channel == channel && payments[at].externalId == externalId
    ensures forall i :: 0 <= i < at ==> !(payments[i].channel == channel && payments[i].externalId == externalId)
  {
    if |payments| == 0 then 0
    else if payments[0].channel == channel && payments[0].externalId == externalId then 0
    else
      var at := FindPayment(payments[1..], channel, externalId);
      assert forall i :: 1 <= i < |payments| ==> payments[i] == payments[1..][i - 1];
      at + 1
  }

  /** `get_products().get(product_id) if product_id else None`. */
  function Lookup(products: map<string, Product>, productId: Option<string>): Option<Product> {
    if productId.Some? && |productId.value| > 0 && productId.value in products
    then Some(products[productId.value])
    else None
  }

  function RowOf(d: Delivery, status: Status, credits: int, tx: Option<nat>): Payment {
    Payment(d.user, d.channel, d.externalId, d.kind, d.productId, status, credits, tx)
  }

  predicate Allowed(product: Option<Product>, d: Delivery) {
    d.kind.SubscriptionEvent? || (product.Some? && d.channel in product.value.channels)
  }

  function GrantTx(d: Delivery, product: Product): Tx
    requires d.grantKey.Some?
  {
    Tx(d.user, Credit, product.credits, GrantKey(d.grantKey.value), ByJournal)
  }

  /** `record_and_grant` as one transaction: a raised error leaves nothing behind. */
  function Record(products: map<string, Product>, s: Store, d: Delivery): (Store, Answer) {
    if !d.kind.SubscriptionEvent? && d.productId.None? then (s, Raised)
    else if FindPayment(s.payments, d.channel, d.externalId) < |s.payments|
    then (s, Recorded(Replayed, 0, AtDelivery))
    else
      var product := Lookup(products, d.productId);
      if !Allowed(product, d) then
        (s.(payments := s.payments + [RowOf(d, Rejected, 0, None)]), Recorded(Rejected, 0, NoLayer))
      else if d.grantKey.None? || product.None? then
        (s.(payments := s.payments + [RowOf(d, NoGrant, 0, None)]), Recorded(NoGrant, 0, NoLayer))
      else
        var (books, r) := Move(s.books, GrantTx(d, product.value));
        if !r.Done? then (s, Raised)
        else if r.replay then
          (Store(books, s.payments + [RowOf(d, Replayed, 0, Some(r.tx))]), Recorded(Replayed, 0, AtGrant))
        else
          (Store(books, s.payments + [RowOf(d, Granted, product.value.credits, Some(r.tx))]),
           Recorded(Granted, product.value.credits, NoLayer))
  }

  // ------------------------------------------------------------------ reversing a purchase

  function KeysOf(names: seq<string>): (keys: set<Key>)
    ensures forall k :: k in keys <==> k.GrantKey? && k.name in names
  {
    if |names| == 0 then {} else KeysOf(names[1..]) + {GrantKey(names[0])}
  }

  /** The credits of the user under one of the keys, in ledger order. */
  function Matched(rows: seq<Tx>, user: nat, keys: set<Key>): (found: seq<Tx>)
    ensures forall t :: t in found <==> t in rows && t.user == user && t.kind.Credit? && t.key in keys
  {
    if |rows| == 0 then []
    else
      var last := rows[|rows| - 1];
      Matched(rows[..|rows| - 1], user, keys) +
      if last.user == user && last.kind.Credit? && last.key in keys then [last] else []
  }

  datatype Tally = Tally(books: Books, revoked: int, notRecovered: int)

  function Take(b: Books, credit: Tx): int {
    if credit.amount <= Balance(b, credit.user) then credit.amount else Balance(b, credit.user)
  }

  function ReversalTx(b: Books, credit: Tx): Tx {
    Tx(credit.user, Debit, Take(b, credit), RefundKey(credit.key), ForRefund)
  }

  function ReverseOne(t: Tally, credit: Tx): Tally {
    var take := Take(t.books, credit);
    if HasKey(t.books.rows, credit.user, RefundKey(credit.key)) then t
    else
      Tally(if take > 0 then Move(t.books, ReversalTx(t.books, credit)).0 else t.books,
            t.revoked + (if take > 0 then take else 0),
            t.notRecovered + credit.amount - take)
  }

  /** The reversal of the first `k` credits. */
  function ReverseFirst(b: Books, credits: seq<Tx>, k: nat): Tally
    requires k <= |credits|
  {
    if k == 0 then Tally(b, 0, 0) else ReverseOne(ReverseFirst(b, credits, k - 1), credits[k - 1])
  }

  function CreditsOf(s: Store, e: RefundEvent): seq<Tx> {
    Matched(s.books.rows, e.user, KeysOf(e.grantKeys))
  }

  function RefundRow(e: RefundEvent, tx: Option<nat>): Payment {
    Payment(e.user, e.channel, e.externalId, Refund, e.productId, Refunded, 0, tx)
  }

  /** `record_refund` as one transaction. */
  function TakeBack(s: Store, e: RefundEvent): (Store, RefundAnswer) {
    if e.productId.None? then (s, RefundRaised)
    else if FindPayment(s.payments, e.channel, e.externalId) < |s.payments| then (s, AlreadyKnown)
    else
      var credits := CreditsOf(s, e);
      var t := ReverseFirst(s.books, credits, |credits|);
      var tx := if t.revoked > 0 && |t.books.rows| > 0 then Some(|t.books.rows| - 1) else None;
      (Store(t.books, s.payments + [RefundRow(e, tx)]), Reversed(t.revoked, t.notRecovered, |credits|))
  }

  // ------------------------------------------------------------------ what every state keeps

  function GrantedTotal(payments: seq<Payment>): int {
    if |payments| == 0 then 0
    else GrantedTotal(payments[..|payments| - 1]) + payments[|payments| - 1].credits
  }

  /** The credits the journal wrote into the ledger. */
  function JournalTotal(rows: seq<Tx>): int {
    if |rows| == 0 then 0
    else
      var last := rows[|rows| - 1];
      JournalTotal(rows[..|rows| - 1]) + if last.reason.ByJournal? && last.kind.Credit? then last.amount else 0
  }

  predicate IsGrantOf(credit: Tx, reversal: Tx) {
    && credit.kind.Credit? && credit.user == reversal.user
    && RefundKey(credit.key) == reversal.key && reversal.amount <= credit.amount
  }

  /** A reversal is a debit of at most what its grant credited. */
  ghost predicate Reversals(rows: seq<Tx>) {
    forall i :: 0 <= i < |rows| && rows[i].key.RefundKey? ==>
      rows[i].kind.Debit? && exists j :: 0 <= j < i && IsGrantOf(rows[j], rows[i])
  }

  ghost predicate NoneReceived(payments: seq<Payment>) {
    forall p :: p in payments ==> !p.status.Received?
  }

  ghost predicate UniqueExternals(payments: seq<Payment>) {
    forall i, j :: 0 <= i < j < |payments| && payments[i].channel == payments[j].channel ==>
      payments[i].externalId != payments[j].externalId
  }

  predicate IsLinked(p: Payment, rows: seq<Tx>) {
    p.credits != 0 ==>
      p.status.Granted? && p.tx.Some? && p.tx.value < |rows|
      && rows[p.tx.value].user == p.user && rows[p.tx.value].amount == p.credits
      && rows[p.tx.value].kind.Credit? && rows[p.tx.value].reason.ByJournal?
  }

  /** Credits on a payment are the amount of the ledger row it names. */
  ghost predicate Linked(payments: seq<Payment>, rows: seq<Tx>) {
    forall p :: p in payments ==> IsLinked(p, rows)
  }

  ghost predicate Consistent(s: Store) {
    && Sound(s.books) && Reversals(s.books.rows)
    && NoneReceived(s.payments) && UniqueExternals(s.payments)
    && Linked(s.payments, s.books.rows)
    && GrantedTotal(s.payments) == JournalTotal(s.books.rows)
  }

  // ------------------------------------------------------------------ runs

  datatype Op =
    | Pay(d: Delivery)
    | Reverse(e: RefundEvent)
    | AdminGrant(user: nat, amount: int, name: string)
    | Charge(user: nat, amount: int, generation: nat)
    | Aborted

  function Step(products: map<string, Product>, s: Store, op: Op): Store {
    match op
    case Pay(d) => Record(products, s, d).0
    case Reverse(e) => TakeBack(s, e).0
    case AdminGrant(user, amount, name) =>
      s.(books := Move(s.books, Tx(user, Credit, amount, GrantKey(name), ByAdmin)).0)
    case Charge(user, amount, generation) =>
      s.(books := Move(s.books, Tx(user, Debit, amount, GenerationKey(generation), ForGeneration)).0)
    case Aborted => s
  }

  function Run(products: map<string, Product>, s: Store, ops: seq<Op>): Store {
    if |ops| == 0 then s else Step(products, Run(products, s, ops[..|ops| - 1]), ops[|ops| - 1])
  }

  const EMPTY: Store := Store(Books(map[], []), [])

  // ------------------------------------------------------------------ movements and the journal's sums

  lemma JournalTotalAppend(rows: seq<Tx>, t: Tx)
    ensures JournalTotal(rows + [t]) ==
            JournalTotal(rows) + if t.reason.ByJournal? && t.kind.Credit? then t.amount else 0
  {
    assert (rows + [t])[..|rows|] == rows;
  }

  lemma GrantedTotalAppend(payments: seq<Payment>, p: Payment)
    ensures GrantedTotal(payments + [p]) == GrantedTotal(payments) + p.credits
  {
    assert (payments + [p])[..|payments|] == payments;
  }

  lemma ReversalsAppend(rows: seq<Tx>, t: Tx)
    requires Reversals(rows)
    requires t.key.RefundKey? ==> t.kind.Debit? && exists j :: 0 <= j < |rows| && IsGrantOf(rows[j], t)
    ensures Reversals(rows + [t])
  {
    hide IsGrantOf;
    var all := rows + [t];
    forall i | 0 <= i < |all| && all[i].key.RefundKey?
      ensures all[i].kind.Debit? && exists j :: 0 <= j < i && IsGrantOf(all[j], all[i])
    {
      if i < |rows| {
        assert all[i] == rows[i];
        var j :| 0 <= j < i && IsGrantOf(rows[j], rows[i]);
        assert all[j] == rows[j];
      } else {
        var j :| 0 <= j < |rows| && IsGrantOf(rows[j], t);
        assert all[j] == rows[j];
      }
    }
  }

  ghost predicate SoundRows(b: Books) {
    Sound(b) && Reversals(b.rows)
  }

  /** A movement under a key that is no reversal's, or a rightful reversal. */
  lemma MoveKeepsRows(b: Books, t: Tx)
    requires SoundRows(b)
    requires t.key.RefundKey? ==> t.kind.Debit? && exists j :: 0 <= j < |b.rows| && IsGrantOf(b.rows[j], t)
    ensures SoundRows(Move(b, t).0)
    ensures JournalTotal(Move(b, t).0.rows) == JournalTotal(b.rows) +
              if t.reason.ByJournal? && t.kind.Credit? && Move(b, t).1.Done? && !Move(b, t).1.replay
              then t.amount else 0
    ensures b.rows <= Move(b, t).0.rows
  {
    hide Sound, Reversals, IsGrantOf, JournalTotal, Move;
    MoveKeepsSound(b, t);
    MoveEffect(b, t, t.user);
    ReversalsAppend(b.rows, t);
    JournalTotalAppend(b.rows, t);
  }

  lemma LinkedStays(payments: seq<Payment>, rows: seq<Tx>, more: seq<Tx>)
    requires Linked(payments, rows) && rows <= more
    ensures Linked(payments, more)
  {
    forall p | p in payments ensures IsLinked(p, more) {
      assert IsLinked(p, rows);
    }
  }

  lemma AppendPayment(s: Store, p: Payment)
    requires NoneReceived(s.payments) && UniqueExternals(s.payments) && Linked(s.payments, s.books.rows)
    requires !p.status.Received? && IsLinked(p, s.books.rows)
    requires FindPayment(s.payments, p.channel, p.externalId) == |s.payments|
    ensures NoneReceived(s.payments + [p]) && UniqueExternals(s.payments + [p])
    ensures Linked(s.payments + [p], s.books.rows)
    ensures GrantedTotal(s.payments + [p]) == GrantedTotal(s.payments) + p.credits
  {
    hide IsLinked, GrantedTotal;
    GrantedTotalAppend(s.payments, p);
  }

  lemma RecordKeeps(products: map<string, Product>, s: Store, d: Delivery)
    requires Consistent(s)
    ensures Consistent(Record(products, s, d).0)
  {
    hide Sound, Reversals, NoneReceived, UniqueExternals, Linked, GrantedTotal, JournalTotal, FindPayment, Move;
    var (after, answer) := Record(products, s, d);
    if |after.payments| > |s.payments| {
      var p := after.payments[|s.payments|];
      assert after.payments == s.payments + [p];
      if after.books != s.books || p.tx.Some? {
        var t := GrantTx(d, Lookup(products, d.productId).value);
        MoveKeepsRows(s.books, t);
        MoveEffect(s.books, t, d.user);
        LinkedStays(s.payments, s.books.rows, after.books.rows);
      }
      AppendPayment(Store(after.books, s.payments), p);
    }
  }

  // ------------------------------------------------------------------ conservation in a refund

  /** The sum of the first `k` credits that had no reversal in `rows`. */
  function Unreversed(rows: seq<Tx>, credits: seq<Tx>, k: nat): int
    requires k <= |credits|
  {
    if k == 0 then 0
    else
      Unreversed(rows, credits, k - 1) +
      if HasKey(rows, credits[k - 1].user, RefundKey(credits[k - 1].key)) then 0 else credits[k - 1].amount
  }

  /** What the loop over the credits relies on. */
  ghost predicate AreCredits(rows: seq<Tx>, user: nat, credits: seq<Tx>) {
    && (forall k :: 0 <= k < |credits| ==>
          credits[k] in rows && credits[k].user == user && credits[k].kind.Credit? && credits[k].amount > 0)
    && forall j, k :: 0 <= j < k < |credits| ==> credits[j].key != credits[k].key
  }

  lemma {:induction false} MatchedAreCredits(rows: seq<Tx>, user: nat, keys: set<Key>)
    requires UniqueKeys(rows) && Positive(rows)
    ensures AreCredits(rows, user, Matched(rows, user, keys))
  {
    if |rows| > 0 {
      var front := rows[..|rows| - 1];
      MatchedAreCredits(front, user, keys);
      var last := rows[|rows| - 1];
      var before := Matched(front, user, keys);
      forall k | 0 <= k < |before| ensures before[k] in rows && (last.user == user ==> before[k].key != last.key) {
        assert before[k] in before && before[k] in front;
      }
    }
  }

  /** The books after the reversal of one credit: its row, if any, under a fresh key. */
  lemma ReverseOneMoves(t: Tally, credit: Tx)
    requires SoundRows(t.books) && credit in t.books.rows && credit.kind.Credit? && credit.amount > 0
    requires !HasKey(t.books.rows, credit.user, RefundKey(credit.key))
    ensures var after := ReverseOne(t, credit);
            && SoundRows(after.books) && t.books.rows <= after.books.rows
            && JournalTotal(after.books.rows) == JournalTotal(t.books.rows)
            && Balance(after.books, credit.user) == Balance(t.books, credit.user) - (after.revoked - t.revoked)
            && after.revoked >= t.revoked && after.notRecovered >= t.notRecovered
            && after.revoked - t.revoked + after.notRecovered - t.notRecovered == credit.amount
    ensures Take(t.books, credit) > 0 ==>
              Move(t.books, ReversalTx(t.books, credit)).1 ==
              Done(false, |t.books.rows|, Balance(t.books, credit.user) - Take(t.books, credit))
    ensures ReverseOne(t, credit).books.rows ==
            if Balance(t.books, credit.user) > 0 then t.books.rows + [ReversalTx(t.books, credit)] else t.books.rows
  {
    hide Sound, Reversals, JournalTotal, Net;
    var take := Take(t.books, credit);
    assert Balance(t.books, credit.user) >= 0 by { SoundBalance(t.books, credit.user); }
    if take > 0 {
      var r := ReversalTx(t.books, credit);
      var j :| 0 <= j < |t.books.rows| && t.books.rows[j] == credit;
      assert IsGrantOf(t.books.rows[j], r);
      FreshMove(t.books, r);
      MoveKeepsRows(t.books, r);
      MoveEffect(t.books, r, credit.user);
    }
  }

  lemma SoundBalance(b: Books, user: nat)
    requires Sound(b)
    ensures Balance(b, user) == Net(b.rows, user) >= 0
  {}

  lemma FreshMove(b: Books, t: Tx)
    requires t.amount > 0 && !HasKey(b.rows, t.user, t.key)
    requires t.kind.Debit? ==> t.amount <= Balance(b, t.user)
    ensures Move(b, t).1 == Done(false, |b.rows|, Balance(b, t.user) + Signed(t))
  {
    var at := FindTx(b.rows, t.user, t.key);
    assert at < |b.rows| ==> HasKey(b.rows, t.user, t.key);
  }

  /** The loop: what is revoked leaves the balance, and the rest is written off. */
  lemma {:induction false} ReverseFirstConserves(b: Books, user: nat, credits: seq<Tx>, k: nat)
    requires SoundRows(b) && AreCredits(b.rows, user, credits) && k <= |credits|
    ensures var t := ReverseFirst(b, credits, k);
            && SoundRows(t.books) && b.rows <= t.books.rows
            && JournalTotal(t.books.rows) == JournalTotal(b.rows)
            && t.revoked >= 0 && t.notRecovered >= 0
            && t.revoked + t.notRecovered == Unreversed(b.rows, credits, k)
            && Balance(t.books, user) == Balance(b, user) - t.revoked
            && (t.revoked > 0 ==> |t.books.rows| > |b.rows|)
    ensures forall j :: k <= j < |credits| ==>
              (HasKey(ReverseFirst(b, credits, k).books.rows, user, RefundKey(credits[j].key)) <==>
               HasKey(b.rows, user, RefundKey(credits[j].key)))
  {
    hide SoundRows, JournalTotal, HasKey, ReverseOne, Move, Balance, Take;
    if k > 0 {
      ReverseFirstConserves(b, user, credits, k - 1);
      var before := ReverseFirst(b, credits, k - 1);
      var c := credits[k - 1];
      assert c in before.books.rows by { assert c in b.rows; InPrefix(b.rows, before.books.rows, c); }
      if HasKey(before.books.rows, user, RefundKey(c.key)) {
        AlreadyReversed(before, c);
      } else {
        ReverseOneMoves(before, c);
        var after := ReverseOne(before, c);
        forall j | k <= j < |credits|
          ensures HasKey(after.books.rows, user, RefundKey(credits[j].key)) <==>
                  HasKey(before.books.rows, user, RefundKey(credits[j].key))
        {
          if Balance(before.books, user) > 0 {
            OtherKey(before.books.rows, ReversalTx(before.books, c), user, RefundKey(credits[j].key));
          }
        }
        RevokedMeansRow(before, c);
      }
    }
  }

  lemma RevokedMeansRow(t: Tally, c: Tx)
    requires SoundRows(t.books) && c in t.books.rows && c.kind.Credit? && c.amount > 0
    requires !HasKey(t.books.rows, c.user, RefundKey(c.key))
    ensures ReverseOne(t, c).revoked > t.revoked ==> |ReverseOne(t, c).books.rows| > |t.books.rows|
  {
    hide SoundRows, HasKey, Move;
    ReverseOneMoves(t, c);
  }

  lemma AlreadyReversed(t: Tally, c: Tx)
    requires HasKey(t.books.rows, c.user, RefundKey(c.key))
    ensures ReverseOne(t, c) == t
  {}

  lemma InPrefix(a: seq<Tx>, b: seq<Tx>, c: Tx)
    requires a <= b && c in a
    ensures c in b
  {
    var i :| 0 <= i < |a| && a[i] == c;
    assert b[i] == c;
  }

  lemma OtherKey(rows: seq<Tx>, t: Tx, user: nat, key: Key)
    requires t.user != user || t.key != key
    ensures HasKey(rows + [t], user, key) <==> HasKey(rows, user, key)
  {
    var all := rows + [t];
    if HasKey(rows, user, key) {
      var i :| 0 <= i < |rows| && rows[i].user == user && rows[i].key == key;
      assert all[i] == rows[i];
    }
    if HasKey(all, user, key) {
      var i :| 0 <= i < |all| && all[i].user == user && all[i].key == key;
      assert all[i] == rows[i];
    }
  }

  /** One refund: revoked plus not recovered is what had not been reversed; nobody ends in debt. */
  lemma RefundConserves(s: Store, e: RefundEvent)
    requires Consistent(s) && TakeBack(s, e).1.Reversed?
    ensures var (after, r) := TakeBack(s, e);
            && r.revoked >= 0 && r.notRecovered >= 0
            && r.revoked + r.notRecovered == Unreversed(s.books.rows, CreditsOf(s, e), |CreditsOf(s, e)|)
            && Balance(after.books, e.user) == Balance(s.books, e.user) - r.revoked >= 0
  {
    hide Sound, Reversals, NoneReceived, UniqueExternals, Linked, FindPayment, ReverseFirst, Matched, Unreversed;
    hide GrantedTotal, JournalTotal;
    var credits := CreditsOf(s, e);
    assert UniqueKeys(s.books.rows) && Positive(s.books.rows) by { SoundParts(s.books); }
    MatchedAreCredits(s.books.rows, e.user, KeysOf(e.grantKeys));
    ReverseFirstConserves(s.books, e.user, credits, |credits|);
    SoundBalance(ReverseFirst(s.books, credits, |credits|).books, e.user);
  }

  lemma SoundParts(b: Books)
    requires Sound(b)
    ensures UniqueKeys(b.rows) && Positive(b.rows)
  {}

  lemma TakeBackKeeps(s: Store, e: RefundEvent)
    requires Consistent(s)
    ensures Consistent(TakeBack(s, e).0)
  {
    hide Sound, Reversals, NoneReceived, UniqueExternals, Linked, FindPayment, ReverseFirst, Matched, Unreversed;
    hide GrantedTotal, JournalTotal;
    var (after, r) := TakeBack(s, e);
    if r.Reversed? {
      var credits := CreditsOf(s, e);
      assert UniqueKeys(s.books.rows) && Positive(s.books.rows) by { SoundParts(s.books); }
      MatchedAreCredits(s.books.rows, e.user, KeysOf(e.grantKeys));
      ReverseFirstConserves(s.books, e.user, credits, |credits|);
      LinkedStays(s.payments, s.books.rows, after.books.rows);
      AppendPayment(Store(after.books, s.payments), after.payments[|s.payments|]);
    }
  }

  // ------------------------------------------------------------------ every run

  lemma StepKeeps(products: map<string, Product>, s: Store, op: Op)
    requires Consistent(s)
    ensures Consistent(Step(products, s, op))
  {
    hide Sound, Reversals, NoneReceived, UniqueExternals, Linked, GrantedTotal, JournalTotal, Record, TakeBack, Move;
    match op
    case Pay(d) => RecordKeeps(products, s, d);
    case Reverse(e) => TakeBackKeeps(s, e);
    case AdminGrant(user, amount, name) =>
      var t := Tx(user, Credit, amount, GrantKey(name), ByAdmin);
      MoveKeepsRows(s.books, t);
      LinkedStays(s.payments, s.books.rows, Move(s.books, t).0.rows);
    case Charge(user, amount, generation) =>
      var t := Tx(user, Debit, amount, GenerationKey(generation), ForGeneration);
      MoveKeepsRows(s.books, t);
      LinkedStays(s.payments, s.books.rows, Move(s.books, t).0.rows);
    case Aborted =>
  }

  /** Every state that a run of these operations reaches is consistent. */
  lemma {:induction false} EveryRunIsConsistent(products: map<string, Product>, s: Store, ops: seq<Op>)
    requires Consistent(s)
    ensures Consistent(Run(products, s, ops))
  {
    hide Consistent, Step;
    if |ops| > 0 {
      EveryRunIsConsistent(products, s, ops[..|ops| - 1]);
      StepKeeps(products, Run(products, s, ops[..|ops| - 1]), ops[|ops| - 1]);
    }
  }

  lemma NothingIsConsistent()
    ensures Consistent(EMPTY)
  {
    NothingIsSound();
  }
}
