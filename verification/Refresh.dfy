/** Refresh tokens: single use under interleaving, and what a reuse revokes. */
module Refresh {
  import opened Strings

  /** A row of `auth_refresh_tokens`; times are seconds. */
  datatype Token = Token(user: nat, device: string, hash: string, expiresAt: Option<int>, used: bool, revoked: bool)

  datatype Refusal = Unknown | Reused | Revoked | Expired

  datatype Result = Refused(why: Refusal) | Issued(token: nat) | Aborted

  /** Where one call of `refresh` stands: before its read, between read and claim, or at its end. */
  datatype Call = AtRead(hash: string) | AtClaim(token: nat) | Ended(result: Result)

  /** A pair that was issued for a token. */
  datatype Rotation = Rotation(spent: nat, issued: nat)

  datatype World = World(now: int, tokens: seq<Token>, calls: seq<Call>, rotations: seq<Rotation>)

  // ------------------------------------------------------------------ the statements

  predicate InChain(t: Token, user: nat, device: string) { t.user == user && t.device == device }

  function RevokedIf(t: Token, user: nat, device: string): Token {
    if InChain(t, user, device) then t.(revoked := true) else t
  }

  /** `_revoke_chain` */
  function RevokeChain(tokens: seq<Token>, user: nat, device: string): (after: seq<Token>)
    ensures |after| == |tokens|
    ensures forall i :: 0 <= i < |tokens| ==> after[i] == RevokedIf(tokens[i], user, device)
  {
    if |tokens| == 0 then []
    else RevokeChain(tokens[..|tokens| - 1], user, device) + [RevokedIf(tokens[|tokens| - 1], user, device)]
  }

  function FindToken(tokens: seq<Token>, hash: string): (at: nat)
    ensures at <= |tokens|
    ensures at < |tokens| ==> tokens[at].hash == hash
    ensures forall i :: 0 <= i < at ==> tokens[i].hash != hash
  {
    if |tokens| == 0 then 0
    else if tokens[0].hash == hash then 0
    else
      var at := FindToken(tokens[1..], hash);
      assert forall i :: 1 <= i < |tokens| ==> tokens[i] == tokens[1..][i - 1];
      at + 1
  }

  /** `_issue_pair`; the hash of a new token is unique. */
  function NewToken(user: nat, device: string, hash: string, expiresAt: int): Token {
    Token(user, device, hash, Some(expiresAt), false, false)
  }

  /** The read: a used token revokes its chain, a revoked or expired one is refused. */
  function Read(tokens: seq<Token>, hash: string, now: int): (seq<Token>, Call) {
    var at := FindToken(tokens, hash);
    if at == |tokens| then (tokens, Ended(Refused(Unknown)))
    else
      var t := tokens[at];
      if t.used then (RevokeChain(tokens, t.user, t.device), Ended(Refused(Reused)))
      else if t.revoked then (tokens, Ended(Refused(Revoked)))
      else if t.expiresAt.Some? && t.expiresAt.value <= now then (tokens, Ended(Refused(Expired)))
      else (tokens, AtClaim(at))
  }

  /** The claim: the guard is that the token is still unused. */
  function Claim(tokens: seq<Token>, at: nat, hash: string, expiresAt: int): (seq<Token>, Result)
    requires at < |tokens|
  {
    var t := tokens[at];
    if t.used then (RevokeChain(tokens, t.user, t.device), Refused(Reused))
    else if FindToken(tokens, hash) < |tokens| then (tokens, Aborted)
    else (tokens[at := t.(used := true)] + [NewToken(t.user, t.device, hash, expiresAt)], Issued(|tokens|))
  }

  // ------------------------------------------------------------------ runs

  datatype Action =
    | Register(user: nat, device: string, hash: string, ttl: int)
    | Start(hash: string)
    | ReadToken(call: nat)
    | ClaimToken(call: nat, hash: string, ttl: int)
    | Clock(now: int)

  predicate Enabled(w: World, a: Action) {
    match a
    case Register(_, _, hash, _) => FindToken(w.tokens, hash) == |w.tokens|
    case ReadToken(call) => call < |w.calls| && w.calls[call].AtRead?
    case ClaimToken(call, _, _) => call < |w.calls| && w.calls[call].AtClaim? && w.calls[call].token < |w.tokens|
    case _ => true
  }

  function ReadStep(w: World, call: nat): World
    requires Enabled(w, ReadToken(call))
  {
    var (tokens, next) := Read(w.tokens, w.calls[call].hash, w.now);
    w.(tokens := tokens, calls := w.calls[call := next])
  }

  function ClaimStep(w: World, call: nat, hash: string, ttl: int): World
    requires Enabled(w, ClaimToken(call, hash, ttl))
  {
    var at := w.calls[call].token;
    var (tokens, result) := Claim(w.tokens, at, hash, w.now + ttl);
    w.(tokens := tokens, calls := w.calls[call := Ended(result)],
       rotations := if result.Issued? then w.rotations + [Rotation(at, result.token)] else w.rotations)
  }

  function Apply(w: World, a: Action): World
    requires Enabled(w, a)
  {
    match a
    case Register(user, device, hash, ttl) => w.(tokens := w.tokens + [NewToken(user, device, hash, w.now + ttl)])
    case Start(hash) => w.(calls := w.calls + [AtRead(hash)])
    case ReadToken(call) => ReadStep(w, call)
    case ClaimToken(call, hash, ttl) => ClaimStep(w, call, hash, ttl)
    case Clock(now) => w.(now := now)
  }

  function Run(w: World, actions: seq<Action>): World {
    if |actions| == 0 then w
    else
      var before := Run(w, actions[..|actions| - 1]);
      var a := actions[|actions| - 1];
      if Enabled(before, a) then Apply(before, a) else before
  }

  const EMPTY := World(0, [], [], [])

  // ------------------------------------------------------------------ what every state keeps

  /** A rotation used its old token up, and its new one is of the same chain. */
  predicate IsRotation(tokens: seq<Token>, r: Rotation) {
    && r.spent < |tokens| && r.issued < |tokens| && tokens[r.spent].used
    && InChain(tokens[r.issued], tokens[r.spent].user, tokens[r.spent].device)
  }

  ghost predicate TrueRotations(w: World) {
    forall k :: 0 <= k < |w.rotations| ==> IsRotation(w.tokens, w.rotations[k])
  }

  ghost predicate OneRotationEach(rotations: seq<Rotation>) {
    forall j, k :: 0 <= j < k < |rotations| ==>
      rotations[j].spent != rotations[k].spent && rotations[j].issued != rotations[k].issued
  }

  ghost predicate CallsPoint(w: World) {
    forall k :: 0 <= k < |w.calls| && w.calls[k].AtClaim? ==> w.calls[k].token < |w.tokens|
  }

  /** A used token was used for a rotation. */
  ghost predicate UsedAreRotated(w: World) {
    forall i :: 0 <= i < |w.tokens| && w.tokens[i].used ==> Rotated(w.rotations, i)
  }

  predicate Rotated(rotations: seq<Rotation>, spent: nat) {
    exists k :: 0 <= k < |rotations| && rotations[k].spent == spent
  }

  ghost predicate Inv(w: World) {
    TrueRotations(w) && OneRotationEach(w.rotations) && CallsPoint(w) && UsedAreRotated(w)
  }

  /** Tokens are only added, used and revoked. */
  ghost predicate Grows(tokens: seq<Token>, more: seq<Token>) {
    |tokens| <= |more| && forall i :: 0 <= i < |tokens| ==> IsOlder(tokens[i], more[i])
  }

  predicate IsOlder(a: Token, b: Token) {
    a.user == b.user && a.device == b.device && a.hash == b.hash && a.expiresAt == b.expiresAt &&
    (a.used ==> b.used) && (a.revoked ==> b.revoked)
  }

  lemma ApplyGrows(w: World, a: Action)
    requires Enabled(w, a)
    ensures Grows(w.tokens, Apply(w, a).tokens)
  {
    hide FindToken, RevokeChain;
  }

  lemma {:induction false} RunGrows(w: World, actions: seq<Action>)
    ensures Grows(w.tokens, Run(w, actions).tokens)
  {
    hide Apply, Enabled;
    if |actions| > 0 {
      var before := Run(w, actions[..|actions| - 1]);
      RunGrows(w, actions[..|actions| - 1]);
      if Enabled(before, actions[|actions| - 1]) {
        ApplyGrows(before, actions[|actions| - 1]);
        GrowsFurther(w.tokens, before.tokens, Run(w, actions).tokens);
      }
    }
  }

  lemma GrowsFurther(a: seq<Token>, b: seq<Token>, c: seq<Token>)
    requires Grows(a, b) && Grows(b, c)
    ensures Grows(a, c)
  {
    forall i | 0 <= i < |a| ensures IsOlder(a[i], c[i]) {
      assert IsOlder(a[i], b[i]) && IsOlder(b[i], c[i]);
    }
  }

  lemma RotationsStay(tokens: seq<Token>, more: seq<Token>, rotations: seq<Rotation>)
    requires Grows(tokens, more) && forall k :: 0 <= k < |rotations| ==> IsRotation(tokens, rotations[k])
    ensures forall k :: 0 <= k < |rotations| ==> IsRotation(more, rotations[k])
  {
    forall k | 0 <= k < |rotations| ensures IsRotation(more, rotations[k]) {
      var r := rotations[k];
      assert IsRotation(tokens, r);
      assert IsOlder(tokens[r.spent], more[r.spent]) && IsOlder(tokens[r.issued], more[r.issued]);
    }
  }

  lemma RotatedStays(rotations: seq<Rotation>, r: Rotation)
    ensures forall t :: Rotated(rotations, t) ==> Rotated(rotations + [r], t)
    ensures Rotated(rotations + [r], r.spent)
  {
    forall t | Rotated(rotations, t) ensures Rotated(rotations + [r], t) {
      var k :| 0 <= k < |rotations| && rotations[k].spent == t;
      assert (rotations + [r])[k].spent == t;
    }
    assert (rotations + [r])[|rotations|] == r;
  }

  lemma ClaimKeeps(w: World, call: nat, hash: string, ttl: int)
    requires Inv(w) && Enabled(w, ClaimToken(call, hash, ttl))
    ensures Inv(ClaimStep(w, call, hash, ttl))
  {
    hide FindToken, RevokeChain, Rotated;
    var after := ClaimStep(w, call, hash, ttl);
    ApplyGrows(w, ClaimToken(call, hash, ttl));
    RotationsStay(w.tokens, after.tokens, w.rotations);
    var at := w.calls[call].token;
    if !w.tokens[at].used {
      forall k | 0 <= k < |w.rotations| ensures w.rotations[k].spent != at && w.rotations[k].issued < |w.tokens| {
        assert IsRotation(w.tokens, w.rotations[k]);
      }
      RotatedStays(w.rotations, Rotation(at, |w.tokens|));
    }
  }

  lemma ApplyKeeps(w: World, a: Action)
    requires Inv(w) && Enabled(w, a)
    ensures Inv(Apply(w, a))
  {
    hide FindToken, RevokeChain, Rotated, OneRotationEach;
    if a.ClaimToken? {
      hide Inv, ClaimStep;
      ClaimKeeps(w, a.call, a.hash, a.ttl);
    } else {
      ApplyGrows(w, a);
      RotationsStay(w.tokens, Apply(w, a).tokens, w.rotations);
    }
  }

  lemma {:induction false} RunKeeps(w: World, actions: seq<Action>)
    requires Inv(w)
    ensures Inv(Run(w, actions))
  {
    hide Inv, Apply, Enabled;
    if |actions| > 0 {
      RunKeeps(w, actions[..|actions| - 1]);
      var before := Run(w, actions[..|actions| - 1]);
      if Enabled(before, actions[|actions| - 1]) { ApplyKeeps(before, actions[|actions| - 1]); }
    }
  }

  // ------------------------------------------------------------------ what a run promises

  lemma EmptyIsRight()
    ensures Inv(EMPTY)
  {}

  /** A token yields at most one new pair, in every interleaving of any calls. */
  lemma SingleUse(actions: seq<Action>, j: nat, k: nat)
    requires var r := Run(EMPTY, actions).rotations; j < |r| && k < |r| && r[j].spent == r[k].spent
    ensures j == k
  {
    hide Run, TrueRotations, CallsPoint, UsedAreRotated;
    EmptyIsRight();
    RunKeeps(EMPTY, actions);
    assert !(j < k) && !(k < j);
  }

  /** The whole chain is revoked, and nothing else is touched. */
  ghost predicate ChainRevoked(tokens: seq<Token>, after: seq<Token>, user: nat, device: string) {
    |after| == |tokens| &&
    forall i :: 0 <= i < |tokens| ==>
      (if InChain(tokens[i], user, device) then after[i] == tokens[i].(revoked := true) else after[i] == tokens[i])
  }

  /** A claim that loses issues nothing and revokes all tokens of the user and device, as a reuse does. */
  lemma LosersRevoke(w: World, call: nat, hash: string, ttl: int)
    requires Enabled(w, ClaimToken(call, hash, ttl)) && w.tokens[w.calls[call].token].used
    ensures var t := w.tokens[w.calls[call].token];
            var after := Apply(w, ClaimToken(call, hash, ttl));
            && ChainRevoked(w.tokens, after.tokens, t.user, t.device) && after.rotations == w.rotations
            && after.calls[call] == Ended(Refused(Reused))
  {
    hide FindToken;
  }

  lemma ReuseRevokes(w: World, call: nat)
    requires Enabled(w, ReadToken(call))
    requires var at := FindToken(w.tokens, w.calls[call].hash); at < |w.tokens| && w.tokens[at].used
    ensures var t := w.tokens[FindToken(w.tokens, w.calls[call].hash)];
            var after := Apply(w, ReadToken(call));
            && ChainRevoked(w.tokens, after.tokens, t.user, t.device) && after.rotations == w.rotations
            && after.calls[call] == Ended(Refused(Reused))
  {
    hide FindToken;
  }

  /**
   * Two refreshes of one token in flight: the pair that the first claim issued is revoked by the
   * second, and that token stays revoked whatever comes later. What may come of it is below.
   */
  lemma ConcurrentRefreshRevokesThePair(actions: seq<Action>, call: nat, hash: string, ttl: int,
                                        later: seq<Action>, k: nat)
    requires var w := Run(EMPTY, actions);
             && Enabled(w, ClaimToken(call, hash, ttl)) && w.tokens[w.calls[call].token].used
             && k < |w.rotations| && w.rotations[k].spent == w.calls[call].token
    ensures var w := Run(EMPTY, actions);
            var end := Run(Apply(w, ClaimToken(call, hash, ttl)), later);
            w.rotations[k].issued < |end.tokens| && end.tokens[w.rotations[k].issued].revoked
  {
    hide Run, Apply, OneRotationEach, CallsPoint, UsedAreRotated;
    EmptyIsRight();
    RunKeeps(EMPTY, actions);
    var w := Run(EMPTY, actions);
    var r := w.rotations[k];
    assert IsRotation(w.tokens, r);
    LosersRevoke(w, call, hash, ttl);
    var lost := Apply(w, ClaimToken(call, hash, ttl));
    assert lost.tokens[r.issued].revoked;
    RunGrows(lost, later);
    assert IsOlder(lost.tokens[r.issued], Run(lost, later).tokens[r.issued]);
  }

  /** A refresh goes on to its claim exactly when its token is known, unused, unrevoked and not expired. */
  lemma OnlyLiveTokensAreClaimed(tokens: seq<Token>, hash: string, now: int)
    ensures var (after, next) := Read(tokens, hash, now);
            var at := FindToken(tokens, hash);
            && (next.AtClaim? <==> at < |tokens| && IsLive(tokens[at], now))
            && (next.AtClaim? ==> next.token == at && after == tokens)
            && (!next.AtClaim? ==> next.Ended? && next.result.Refused?)
            && (after != tokens ==> at < |tokens| && tokens[at].used)
  {
    hide FindToken;
  }

  /** The reason of a refusal: the use of the token comes before its revocation, and that before its age. */
  lemma RefusedMeans(tokens: seq<Token>, hash: string, now: int)
    ensures var next := Read(tokens, hash, now).1;
            var at := FindToken(tokens, hash);
            && (next == Ended(Refused(Unknown)) <==> forall i :: 0 <= i < |tokens| ==> tokens[i].hash != hash)
            && (next == Ended(Refused(Reused)) <==> at < |tokens| && tokens[at].used)
            && (next == Ended(Refused(Revoked)) <==> at < |tokens| && !tokens[at].used && tokens[at].revoked)
            && (next == Ended(Refused(Expired)) <==>
                  at < |tokens| && !tokens[at].used && !tokens[at].revoked && !IsLive(tokens[at], now))
  {}

  predicate IsLive(t: Token, now: int) {
    !t.used && !t.revoked && (t.expiresAt.None? || now < t.expiresAt.value)
  }

  // ------------------------------------------------------------------ hashes

  ghost predicate UniqueHashes(tokens: seq<Token>) {
    forall j, k :: 0 <= j < k < |tokens| ==> tokens[j].hash != tokens[k].hash
  }

  lemma StepKeepsHashes(w: World, a: Action)
    requires Enabled(w, a) && UniqueHashes(w.tokens)
    ensures UniqueHashes(Apply(w, a).tokens)
  {}

  /** Every token has a hash of its own, in every run: a claim whose new hash is taken is aborted. */
  lemma {:induction false} HashesAreUnique(actions: seq<Action>)
    ensures UniqueHashes(Run(EMPTY, actions).tokens)
  {
    hide Apply, Enabled, UniqueHashes;
    if |actions| == 0 {
      assert UniqueHashes(EMPTY.tokens) by { NoHashes(); }
    } else {
      HashesAreUnique(actions[..|actions| - 1]);
      var before := Run(EMPTY, actions[..|actions| - 1]);
      if Enabled(before, actions[|actions| - 1]) { StepKeepsHashes(before, actions[|actions| - 1]); }
    }
  }

  lemma NoHashes()
    ensures UniqueHashes(EMPTY.tokens)
  {}

  // ------------------------------------------------------------------ how long a revocation lasts

  /** No token of the user and device is unrevoked. */
  ghost predicate ChainIsDead(w: World, user: nat, device: string) {
    forall i :: 0 <= i < |w.tokens| && InChain(w.tokens[i], user, device) ==> w.tokens[i].revoked
  }

  /** A call that read its token in time stands at the claim, and the token is unused. */
  predicate IsPending(w: World, call: nat, user: nat, device: string) {
    call < |w.calls| && w.calls[call].AtClaim? && w.calls[call].token < |w.tokens| &&
    InChain(w.tokens[w.calls[call].token], user, device) && !w.tokens[w.calls[call].token].used
  }

  ghost predicate NonePending(w: World, user: nat, device: string) {
    forall call :: !IsPending(w, call, user, device)
  }

  predicate Registers(a: Action, user: nat, device: string) {
    a.Register? && a.user == user && a.device == device
  }

  lemma StaysDead(w: World, a: Action, user: nat, device: string)
    requires Enabled(w, a) && !Registers(a, user, device)
    requires ChainIsDead(w, user, device) && NonePending(w, user, device)
    ensures ChainIsDead(Apply(w, a), user, device)
  {
    hide FindToken, RevokeChain;
    if a.ClaimToken? { assert !IsPending(w, a.call, user, device); }
  }

  lemma StaysUnpending(w: World, a: Action, call: nat, user: nat, device: string)
    requires Enabled(w, a) && CallsPoint(w)
    requires ChainIsDead(w, user, device) && NonePending(w, user, device)
    ensures !IsPending(Apply(w, a), call, user, device)
  {
    hide FindToken, RevokeChain;
    assert !IsPending(w, call, user, device);
    ApplyGrows(w, a);
    if call < |w.calls| && w.calls[call].AtClaim? {
      assert IsOlder(w.tokens[w.calls[call].token], Apply(w, a).tokens[w.calls[call].token]);
    }
  }

  lemma {:induction false} RunStaysDead(w: World, actions: seq<Action>, user: nat, device: string)
    requires Inv(w) && ChainIsDead(w, user, device) && NonePending(w, user, device)
    requires forall a :: a in actions ==> !Registers(a, user, device)
    ensures ChainIsDead(Run(w, actions), user, device) && NonePending(Run(w, actions), user, device)
  {
    hide Apply, Enabled, ChainIsDead, IsPending, Registers, TrueRotations, OneRotationEach, UsedAreRotated, CallsPoint;
    if |actions| > 0 {
      RunStaysDead(w, actions[..|actions| - 1], user, device);
      RunKeeps(w, actions[..|actions| - 1]);
      var before := Run(w, actions[..|actions| - 1]);
      var a := actions[|actions| - 1];
      if Enabled(before, a) {
        StaysDead(before, a, user, device);
        forall call ensures !IsPending(Apply(before, a), call, user, device) {
          StaysUnpending(before, a, call, user, device);
        }
      }
    }
  }

  /** A hash that no token has. */
  lemma FreshHash(tokens: seq<Token>) returns (hash: string)
    ensures FindToken(tokens, hash) == |tokens| && forall i :: 0 <= i < |tokens| ==> |tokens[i].hash| < |hash|
  {
    if |tokens| == 0 {
      hash := "x";
    } else {
      var rest := FreshHash(tokens[1..]);
      hash := (if |rest| > |tokens[0].hash| then rest else tokens[0].hash) + "x";
      assert forall i :: 1 <= i < |tokens| ==> tokens[i] == tokens[1..][i - 1];
    }
  }

  /** A call that read its token before it was revoked still rotates it, into a live one. */
  lemma PendingIsRotated(w: World, call: nat, hash: string, ttl: int, user: nat, device: string)
    requires IsPending(w, call, user, device) && FindToken(w.tokens, hash) == |w.tokens| && ttl > 0
    ensures Enabled(w, ClaimToken(call, hash, ttl))
    ensures var after := Apply(w, ClaimToken(call, hash, ttl));
            && |after.tokens| == |w.tokens| + 1 && InChain(after.tokens[|w.tokens|], user, device)
            && IsLive(after.tokens[|w.tokens|], after.now)
  {
    hide FindToken, RevokeChain;
  }

  lemma RunOfOne(w: World, a: Action)
    requires Enabled(w, a)
    ensures Run(w, [a]) == Apply(w, a)
  {
    hide Apply, Enabled;
    assert [a][..0] == [];
    assert Run(w, []) == w;
  }

  /**
   * REVOKED FOR GOOD, EXACTLY. A chain without a live token stays without one, whatever happens short
   * of a new registration, if and only if no call stands at the claim of an unused token of it: the
   * claim looks at the use of the token, and not at its revocation.
   */
  lemma DeadForGoodExactly(w: World, user: nat, device: string)
    requires Inv(w) && ChainIsDead(w, user, device)
    ensures (forall actions :: (forall a :: a in actions ==> !Registers(a, user, device)) ==>
                                 ChainIsDead(Run(w, actions), user, device)) <==>
            NonePending(w, user, device)
  {
    hide Inv, Run, Apply, Enabled, ChainIsDead, IsPending, Registers, FindToken;
    if NonePending(w, user, device) {
      forall actions | forall a :: a in actions ==> !Registers(a, user, device)
        ensures ChainIsDead(Run(w, actions), user, device)
      {
        RunStaysDead(w, actions, user, device);
      }
    } else {
      var call: nat :| IsPending(w, call, user, device);
      var hash := FreshHash(w.tokens);
      PendingIsRotated(w, call, hash, 1, user, device);
      var a := ClaimToken(call, hash, 1);
      RunOfOne(w, a);
      LiveIsNotDead(Apply(w, a), |w.tokens|, user, device);
      ClaimIsNoRegistration(call, hash, user, device);
      assert !ChainIsDead(Run(w, [a]), user, device);
    }
  }

  lemma ClaimIsNoRegistration(call: nat, hash: string, user: nat, device: string)
    ensures !Registers(ClaimToken(call, hash, 1), user, device)
  {}

  lemma LiveIsNotDead(w: World, i: nat, user: nat, device: string)
    requires i < |w.tokens| && InChain(w.tokens[i], user, device) && IsLive(w.tokens[i], w.now)
    ensures !ChainIsDead(w, user, device)
  {}

  // Two refreshes of one token, and one of its successor between their claims.
  const OLD := Token(1, "d", "a", Some(10), true, false)
  const NEW := Token(1, "d", "b", Some(10), false, false)
  const BOTH: seq<Action> := [Register(1, "d", "a", 10), Start("a"), Start("a"), ReadToken(0), ReadToken(1)]
  const AFTER: seq<Action> := [ClaimToken(0, "b", 10), Start("b"), ReadToken(2), ClaimToken(1, "c", 10)]

  lemma RunOn(w: World, first: seq<Action>, a: Action)
    requires Enabled(Run(w, first), a)
    ensures Run(w, first + [a]) == Apply(Run(w, first), a)
  {
    hide Apply, Enabled;
    assert (first + [a])[..|first|] == first;
  }

  lemma BothRead()
    ensures Run(EMPTY, BOTH) == World(0, [OLD.(used := false)], [AtClaim(0), AtClaim(0)], [])
  {
    hide Run;
    assert Run(EMPTY, []) == EMPTY by { NoActions(); }
    assert [] + [BOTH[0]] == BOTH[..1];
    RunOn(EMPTY, [], BOTH[0]);
    assert BOTH[..1] + [BOTH[1]] == BOTH[..2];
    RunOn(EMPTY, BOTH[..1], BOTH[1]);
    assert BOTH[..2] + [BOTH[2]] == BOTH[..3];
    RunOn(EMPTY, BOTH[..2], BOTH[2]);
    assert BOTH[..3] + [BOTH[3]] == BOTH[..4];
    RunOn(EMPTY, BOTH[..3], BOTH[3]);
    assert BOTH[..4] + [BOTH[4]] == BOTH;
    RunOn(EMPTY, BOTH[..4], BOTH[4]);
  }

  lemma NoActions()
    ensures Run(EMPTY, []) == EMPTY
  {}

  lemma OneRotated()
    ensures Run(EMPTY, BOTH + AFTER[..2]) ==
            World(0, [OLD, NEW], [Ended(Issued(1)), AtClaim(0), AtRead("b")], [Rotation(0, 1)])
  {
    hide Run;
    BothRead();
    assert BOTH + AFTER[..1] == BOTH + [AFTER[0]];
    RunOn(EMPTY, BOTH, AFTER[0]);
    assert Run(EMPTY, BOTH + AFTER[..1]).tokens == [OLD, NEW];
    assert BOTH + AFTER[..2] == (BOTH + AFTER[..1]) + [AFTER[1]];
    RunOn(EMPTY, BOTH + AFTER[..1], AFTER[1]);
  }

  /** A run that leaves a chain without a live token and a call that can still rotate one of it. */
  lemma PendingIsReached()
    ensures var w := Run(EMPTY, BOTH + AFTER);
            Inv(w) && ChainIsDead(w, 1, "d") && IsPending(w, 2, 1, "d")
  {
    EmptyIsRight();
    RunKeeps(EMPTY, BOTH + AFTER);
    hide Run, Inv;
    OneRotated();
    assert BOTH + AFTER[..3] == (BOTH + AFTER[..2]) + [AFTER[2]];
    RunOn(EMPTY, BOTH + AFTER[..2], AFTER[2]);
    assert BOTH + AFTER == (BOTH + AFTER[..3]) + [AFTER[3]];
    RunOn(EMPTY, BOTH + AFTER[..3], AFTER[3]);
  }

  /** A reuse leaves a dead chain, whether a read or a losing claim finds it. */
  lemma ReuseKillsTheChain(w: World, a: Action)
    requires Enabled(w, a) && (a.ReadToken? || a.ClaimToken?)
    requires var at := if a.ReadToken? then FindToken(w.tokens, w.calls[a.call].hash) else w.calls[a.call].token;
             at < |w.tokens| && w.tokens[at].used
    ensures var at := if a.ReadToken? then FindToken(w.tokens, w.calls[a.call].hash) else w.calls[a.call].token;
            ChainIsDead(Apply(w, a), w.tokens[at].user, w.tokens[at].device)
  {
    hide FindToken;
  }

  /** Of the calls that reached the claim of an unused token the first wins, and no other does. */
  lemma FirstClaimWins(w: World, call: nat, hash: string, ttl: int)
    requires Inv(w) && Enabled(w, ClaimToken(call, hash, ttl)) && FindToken(w.tokens, hash) == |w.tokens|
    ensures var at := w.calls[call].token;
            var after := Apply(w, ClaimToken(call, hash, ttl));
            && (after.calls[call] == Ended(Issued(|w.tokens|)) <==> !Rotated(w.rotations, at))
            && after.tokens[at].used && Rotated(after.rotations, at)
  {
    hide FindToken, RevokeChain, OneRotationEach;
    var at := w.calls[call].token;
    if !w.tokens[at].used {
      forall k | 0 <= k < |w.rotations| ensures w.rotations[k].spent != at {
        assert IsRotation(w.tokens, w.rotations[k]);
      }
      RotatedStays(w.rotations, Rotation(at, |w.tokens|));
    }
  }

  // ------------------------------------------------------------------ the service

  /** `AuthService` over its tokens: the two statements of a refresh, committed apart. */
  class AuthService {
    var tokens: seq<Token>
    const ttl: int

    constructor (ttl: int)
      ensures tokens == [] && this.ttl == ttl
    {
      tokens, this.ttl := [], ttl;
    }

    /** `_revoke_chain`: the rows of the device that are not revoked yet. */
    method RevokeDevice(user: nat, device: string)
      modifies this`tokens
      ensures tokens == RevokeChain(old(tokens), user, device)
    {
      for i := 0 to |tokens|
        invariant |tokens| == |old(tokens)|
        invariant forall k :: 0 <= k < i ==> tokens[k] == RevokedIf(old(tokens)[k], user, device)
        invariant forall k :: i <= k < |tokens| ==> tokens[k] == old(tokens)[k]
      {
        if tokens[i].user == user && tokens[i].device == device && !tokens[i].revoked {
          tokens := tokens[i := tokens[i].(revoked := true)];
        }
      }
      assert tokens == RevokeChain(old(tokens), user, device);
    }

    /** The fast pre-check of `refresh`. */
    method ReadForRefresh(hash: string, now: int) returns (next: Call)
      modifies this`tokens
      ensures (tokens, next) == Read(old(tokens), hash, now)
    {
      hide FindToken;
      var at := FindToken(tokens, hash);
      if at == |tokens| {
        return Ended(Refused(Unknown));
      }
      var t := tokens[at];
      if t.used {
        RevokeDevice(t.user, t.device);
        return Ended(Refused(Reused));
      }
      if t.revoked {
        return Ended(Refused(Revoked));
      }
      if t.expiresAt.Some? && t.expiresAt.value <= now {
        return Ended(Refused(Expired));
      }
      next := AtClaim(at);
    }

    /** The conditional update and, if it matched, the new pair. */
    method ClaimAndIssue(at: nat, hash: string, now: int) returns (result: Result)
      requires at < |tokens|
      modifies this`tokens
      ensures (tokens, result) == Claim(old(tokens), at, hash, now + ttl)
    {
      hide FindToken;
      var t := tokens[at];
      if t.used {
        RevokeDevice(t.user, t.device);
        return Refused(Reused);
      }
      if FindToken(tokens, hash) < |tokens| {
        return Aborted;
      }
      result := Issued(|tokens|);
      tokens := tokens[at := t.(used := true)] + [NewToken(t.user, t.device, hash, now + ttl)];
    }

    /** `refresh` with nothing in between. */
    method RefreshOnce(token: string, hash: string, now: int) returns (result: Result)
      modifies this`tokens
      ensures var (read, next) := Read(old(tokens), token, now);
              if next.AtClaim? then
                next.token < |read| && (tokens, result) == Claim(read, next.token, hash, now + ttl)
              else next == Ended(result) && tokens == read
    {
      var next := ReadForRefresh(token, now);
      if next.Ended? {
        return next.result;
      }
      result := ClaimAndIssue(next.token, hash, now);
    }
  }
}
