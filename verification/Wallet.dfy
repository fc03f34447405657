/** The wallet: the only writer of balances and of the ledger. */
module Wallet {
  /** Ledger keys live in namespaces; a reversal is keyed by the key it reverses. */
  datatype Key = GenerationKey(id: nat) | GrantKey(name: string) | RefundKey(of: Key)

  datatype Kind = Credit | Debit

  datatype Reason = ForGeneration | ByJournal | ByAdmin | ForRefund

  datatype Tx = Tx(user: nat, kind: Kind, amount: int, key: Key, reason: Reason)

  /** `wallets` and `ledger_transactions`; a transaction is known by its position in the ledger. */
  datatype Books = Books(balances: map<nat, int>, rows: seq<Tx>)

  datatype Outcome =
    | Done(replay: bool, tx: nat, balance: int)
    | Invalid
    | Insufficient
    | Conflict

  function Balance(b: Books, user: nat): int {
    if user in b.balances then b.balances[user] else 0
  }

  /** The position of the row with this key, or the number of rows. */
  function FindTx(rows: seq<Tx>, user: nat, key: Key): (at: nat)
    ensures at <= |rows|
    ensures at < |rows| ==> rows[at].user == user && rows[at].key == key
    ensures forall i :: 0 <= i < at ==> !(rows[i].user == user && rows[i].key == key)
  {
    if |rows| == 0 then 0
    else if rows[0].user == user && rows[0].key == key then 0
    else
      var at := FindTx(rows[1..], user, key);
      assert forall i :: 1 <= i < |rows| ==> rows[i] == rows[1..][i - 1];
      at + 1
  }

  predicate HasKey(rows: seq<Tx>, user: nat, key: Key) {
    exists i :: 0 <= i < |rows| && rows[i].user == user && rows[i].key == key
  }

  function EnsureWallet(b: Books, user: nat): Books {
    if user in b.balances then b else b.(balances := b.balances[user := 0])
  }

  /** What a movement does: nothing on an error, nothing on a replay, one row otherwise. */
  function Move(b: Books, t: Tx): (Books, Outcome) {
    if t.amount <= 0 then (b, Invalid)
    else
      var at := FindTx(b.rows, t.user, t.key);
      if at < |b.rows| then
        if b.rows[at].kind == t.kind && b.rows[at].amount == t.amount
        then (EnsureWallet(b, t.user), Done(true, at, Balance(b, t.user)))
        else (b, Conflict)
      else if t.kind.Debit? && Balance(b, t.user) < t.amount then (b, Insufficient)
      else
        var balance := Balance(b, t.user) + Signed(t);
        (Books(b.balances[t.user := balance], b.rows + [t]), Done(false, |b.rows|, balance))
  }

  // ------------------------------------------------------------------ what the ledger is worth

  function Signed(t: Tx): int {
    if t.kind.Credit? then t.amount else -t.amount
  }

  /** Credits minus debits of one user. */
  function Net(rows: seq<Tx>, user: nat): int {
    if |rows| == 0 then 0
    else
      Net(rows[..|rows| - 1], user) +
      if rows[|rows| - 1].user == user then Signed(rows[|rows| - 1]) else 0
  }

  lemma NetAppend(rows: seq<Tx>, t: Tx, user: nat)
    ensures Net(rows + [t], user) == Net(rows, user) + if t.user == user then Signed(t) else 0
  {
    assert (rows + [t])[..|rows|] == rows;
  }

  ghost predicate UniqueKeys(rows: seq<Tx>) {
    forall i, j :: 0 <= i < j < |rows| && rows[i].user == rows[j].user ==> rows[i].key != rows[j].key
  }

  ghost predicate Positive(rows: seq<Tx>) {
    forall i :: 0 <= i < |rows| ==> rows[i].amount > 0
  }

  /** Every stored balance is the ledger's, and no user is in debt. */
  ghost predicate Balanced(b: Books) {
    forall u: nat :: Balance(b, u) == Net(b.rows, u) >= 0
  }

  ghost predicate Sound(b: Books) {
    UniqueKeys(b.rows) && Positive(b.rows) && Balanced(b)
  }

  lemma RefusalChangesNothing(b: Books, t: Tx)
    requires !Move(b, t).1.Done?
    ensures Move(b, t).0 == b
  {}

  lemma NothingIsSound()
    ensures Sound(Books(map[], []))
  {}

  /** Grants, debits, replays and refusals, in any mix, keep the books sound. */
  lemma MoveKeepsSound(b: Books, t: Tx)
    requires Sound(b)
    ensures Sound(Move(b, t).0)
  {
    hide Balanced;
    MoveKeepsBalanced(b, t);
  }

  lemma MoveKeepsBalanced(b: Books, t: Tx)
    requires Balanced(b)
    ensures Balanced(Move(b, t).0)
  {
    hide FindTx, Net;
    var (after, outcome) := Move(b, t);
    forall u: nat ensures Balance(after, u) == Net(after.rows, u) >= 0 {
      NetAppend(b.rows, t, u);
      assert Balance(b, u) == Net(b.rows, u) >= 0;
    }
  }

  predicate IsRow(r: Tx, t: Tx) {
    r.user == t.user && r.key == t.key && r.kind == t.kind && r.amount == t.amount
  }

  predicate HasRow(rows: seq<Tx>, t: Tx) {
    exists i :: 0 <= i < |rows| && IsRow(rows[i], t)
  }

  /** Exactly when a movement is carried out, replayed or refused. */
  lemma MoveOutcomes(b: Books, t: Tx)
    requires Sound(b)
    ensures Move(b, t).1.Invalid? <==> t.amount <= 0
    ensures Move(b, t).1.Conflict? <==> t.amount > 0 && HasKey(b.rows, t.user, t.key) && !HasRow(b.rows, t)
    ensures Move(b, t).1.Insufficient? <==>
              t.amount > 0 && !HasKey(b.rows, t.user, t.key) && t.kind.Debit? && Net(b.rows, t.user) < t.amount
    ensures (Move(b, t).1.Done? && Move(b, t).1.replay) <==> t.amount > 0 && HasRow(b.rows, t)
  {
    hide Net;
    var at := FindTx(b.rows, t.user, t.key);
    assert HasKey(b.rows, t.user, t.key) <==> at < |b.rows|;
    forall i | 0 <= i < |b.rows| && IsRow(b.rows[i], t) ensures i == at {
      FindUnique(b.rows, t.user, t.key, i);
    }
    assert Balance(b, t.user) == Net(b.rows, t.user);
    if at < |b.rows| && b.rows[at].kind == t.kind && b.rows[at].amount == t.amount {
      assert IsRow(b.rows[at], t);
    }
  }

  /** A movement carried out adds its row and changes one balance; any other changes no balance. */
  lemma MoveEffect(b: Books, t: Tx, user: nat)
    ensures var (after, r) := Move(b, t);
            if r.Done? && !r.replay then
              && after.rows == b.rows + [t] && r.tx == |b.rows| && r.balance == Balance(after, t.user)
              && Balance(after, user) == Balance(b, user) + if user == t.user then Signed(t) else 0
            else after.rows == b.rows && Balance(after, user) == Balance(b, user)
  {}

  /** A run of movements, each of which may be refused or be a replay. */
  function MoveAll(b: Books, ts: seq<Tx>): Books {
    if |ts| == 0 then b else Move(MoveAll(b, ts[..|ts| - 1]), ts[|ts| - 1]).0
  }

  lemma {:induction false} EveryRunIsSound(b: Books, ts: seq<Tx>)
    requires Sound(b)
    ensures Sound(MoveAll(b, ts))
  {
    if |ts| > 0 {
      EveryRunIsSound(b, ts[..|ts| - 1]);
      MoveKeepsSound(MoveAll(b, ts[..|ts| - 1]), ts[|ts| - 1]);
    }
  }

  lemma {:induction false} RowsStay(b: Books, ts: seq<Tx>)
    ensures b.rows <= MoveAll(b, ts).rows
  {
    if |ts| > 0 { RowsStay(b, ts[..|ts| - 1]); }
  }

  lemma FindUnique(rows: seq<Tx>, user: nat, key: Key, at: nat)
    requires UniqueKeys(rows) && at < |rows| && rows[at].user == user && rows[at].key == key
    ensures FindTx(rows, user, key) == at
  {
    var found := FindTx(rows, user, key);
    assert found <= at;
    assert !(found < at);
  }

  /** An operation that went through is a replay ever after: same row, no money moved. */
  lemma ReplayForever(b: Books, t: Tx, between: seq<Tx>)
    requires Sound(b) && Move(b, t).1.Done?
    ensures var later := MoveAll(Move(b, t).0, between);
            && Move(later, t).1.Done? && Move(later, t).1.replay
            && Move(later, t).1.tx == Move(b, t).1.tx
            && Move(later, t).0.rows == later.rows
            && forall u: nat :: Balance(Move(later, t).0, u) == Balance(later, u)
  {
    var (first, outcome) := Move(b, t);
    var later := MoveAll(first, between);
    MoveKeepsSound(b, t);
    EveryRunIsSound(first, between);
    RowsStay(first, between);
    assert later.rows[outcome.tx] == first.rows[outcome.tx];
    FindUnique(later.rows, t.user, t.key, outcome.tx);
  }

  // ------------------------------------------------------------------ the service

  /** `WalletService` over its two tables; a raised error rolls the tables back. */
  class WalletService {
    var balances: map<nat, int>
    var rows: seq<Tx>

    ghost function State(): Books
      reads this
    {
      Books(balances, rows)
    }

    constructor ()
      ensures State() == Books(map[], [])
    {
      balances, rows := map[], [];
    }

    method EnsureWalletRow(user: nat)
      modifies this`balances
      ensures State() == EnsureWallet(old(State()), user)
      ensures user in balances
    {
      if user !in balances {
        balances := balances[user := 0];
      }
    }

    /** `INSERT … ON CONFLICT DO NOTHING RETURNING id`. */
    method InsertTx(t: Tx) returns (inserted: bool, id: nat)
      modifies this`rows
      ensures id == FindTx(old(rows), t.user, t.key)
      ensures inserted == (id == |old(rows)|)
      ensures rows == if inserted then old(rows) + [t] else old(rows)
    {
      id := FindTx(rows, t.user, t.key);
      inserted := id == |rows|;
      if inserted {
        rows := rows + [t];
      }
    }

    method ReplayOrConflict(t: Tx, existing: nat) returns (r: Outcome)
      requires existing < |rows|
      ensures r ==
              if rows[existing].kind == t.kind && rows[existing].amount == t.amount
              then Done(true, existing, Balance(State(), t.user))
              else Conflict
    {
      if rows[existing].kind != t.kind || rows[existing].amount != t.amount {
        return Conflict;
      }
      return Done(true, existing, if t.user in balances then balances[t.user] else 0);
    }

    method Consume(user: nat, amount: int, key: Key, reason: Reason) returns (r: Outcome)
      modifies this
      ensures (State(), r) == Move(old(State()), Tx(user, Debit, amount, key, reason))
    {
      if amount <= 0 {
        return Invalid;
      }
      var savedBalances, savedRows := balances, rows;
      EnsureWalletRow(user);
      var t := Tx(user, Debit, amount, key, reason);
      var inserted, id := InsertTx(t);
      if !inserted {
        r := ReplayOrConflict(t, id);
      } else if balances[user] >= amount {
        balances := balances[user := balances[user] - amount];
        r := Done(false, id, balances[user]);
      } else {
        r := Insufficient;
      }
      if !r.Done? {
        balances, rows := savedBalances, savedRows;
      } else if !r.replay {
        SameUpdate(savedBalances, user, 0, balances[user]);
      }
    }

    method Grant(user: nat, amount: int, key: Key, reason: Reason) returns (r: Outcome)
      modifies this
      ensures (State(), r) == Move(old(State()), Tx(user, Credit, amount, key, reason))
    {
      if amount <= 0 {
        return Invalid;
      }
      var savedBalances, savedRows := balances, rows;
      EnsureWalletRow(user);
      var t := Tx(user, Credit, amount, key, reason);
      var inserted, id := InsertTx(t);
      if !inserted {
        r := ReplayOrConflict(t, id);
      } else {
        balances := balances[user := balances[user] + amount];
        r := Done(false, id, balances[user]);
        SameUpdate(savedBalances, user, 0, balances[user]);
      }
      if !r.Done? {
        balances, rows := savedBalances, savedRows;
      }
    }
  }

  lemma SameUpdate(m: map<nat, int>, user: nat, x: int, y: int)
    ensures m[user := x][user := y] == m[user := y]
  {}
}
