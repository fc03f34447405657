/** Access to a generation: the right (a subscription or the trial), then the resource (credits). */
module Policy {
  import opened Strings

  datatype SubscriptionStatus = NoSubscription | Active | Expired

  datatype BillingKind = NotBilled | ByCredits | ByTrial | Unbilled

  datatype BlockReason = TrialUsed | SubscriptionExpired | CreditsEmpty | Denied(gate: string)

  datatype PolicyState = PolicyState(subscription: SubscriptionStatus, trialUsed: bool, balance: int)

  datatype Decision = Allow(kind: BillingKind) | Block(reason: BlockReason)

  /** `evaluate`: the subscription is looked at before the balance. */
  function Evaluate(s: PolicyState, required: int): Decision {
    match s.subscription
    case Active => if s.balance >= required then Allow(ByCredits) else Block(CreditsEmpty)
    case Expired => Block(SubscriptionExpired)
    case NoSubscription => if s.trialUsed then Block(TrialUsed) else Allow(ByTrial)
  }

  /** `apply_gates`: the first gate that blocks has the word; one that allows has none. */
  function ApplyGates(d: Decision, verdicts: seq<Option<Decision>>): Decision {
    if |verdicts| == 0 then d
    else if verdicts[0].Some? && verdicts[0].value.Block? then verdicts[0].value
    else ApplyGates(d, verdicts[1..])
  }

  function Decide(s: PolicyState, required: int, verdicts: seq<Option<Decision>>): Decision {
    ApplyGates(Evaluate(s, required), verdicts)
  }

  lemma {:induction false} GatesOnlyTighten(d: Decision, verdicts: seq<Option<Decision>>)
    ensures ApplyGates(d, verdicts).Allow? <==>
              d.Allow? && forall k :: 0 <= k < |verdicts| ==> !(verdicts[k].Some? && verdicts[k].value.Block?)
    ensures ApplyGates(d, verdicts).Allow? ==> ApplyGates(d, verdicts) == d
  {
    if |verdicts| > 0 {
      GatesOnlyTighten(d, verdicts[1..]);
      assert forall k :: 1 <= k < |verdicts| ==> verdicts[k] == verdicts[1..][k - 1];
    }
  }

  predicate MayPay(s: PolicyState, required: int) { s.subscription.Active? && s.balance >= required }

  predicate MayTry(s: PolicyState) { s.subscription.NoSubscription? && !s.trialUsed }

  /** Allowed exactly when no gate blocks and the user can pay, or has the trial left. */
  lemma AllowedMeans(s: PolicyState, required: int, verdicts: seq<Option<Decision>>)
    ensures var d := Decide(s, required, verdicts);
            && (d.Allow? <==> (MayPay(s, required) || MayTry(s)) &&
                              forall k :: 0 <= k < |verdicts| ==> !(verdicts[k].Some? && verdicts[k].value.Block?))
            && (d.Allow? ==> d.kind == if MayPay(s, required) then ByCredits else ByTrial)
  {
    GatesOnlyTighten(Evaluate(s, required), verdicts);
  }

  /** Gate `k` blocks, and none before it. */
  ghost predicate IsFirstBlock(verdicts: seq<Option<Decision>>, k: nat) {
    && k < |verdicts| && IsBlock(verdicts[k])
    && forall j :: 0 <= j < k ==> !IsBlock(verdicts[j])
  }

  predicate IsBlock(verdict: Option<Decision>) { verdict.Some? && verdict.value.Block? }

  lemma {:induction false} FirstBlockWins(d: Decision, verdicts: seq<Option<Decision>>, k: nat)
    requires IsFirstBlock(verdicts, k)
    ensures Some(ApplyGates(d, verdicts)) == verdicts[k]
  {
    if k > 0 {
      assert !IsBlock(verdicts[0]);
      FirstBlockWins(d, verdicts[1..], k - 1);
    }
  }

  /** The reason told: that of the first gate that blocks; without one, an expired subscription whatever the balance,
      too few credits with an active one, or the used trial without any. */
  lemma BlockedMeans(s: PolicyState, required: int, verdicts: seq<Option<Decision>>, k: nat)
    ensures IsFirstBlock(verdicts, k) ==> Some(Decide(s, required, verdicts)) == verdicts[k]
    ensures (forall j :: 0 <= j < |verdicts| ==> !IsBlock(verdicts[j])) && Decide(s, required, verdicts).Block? ==>
              match Decide(s, required, verdicts).reason
              case SubscriptionExpired => s.subscription.Expired?
              case CreditsEmpty => s.subscription.Active? && s.balance < required
              case TrialUsed => s.subscription.NoSubscription? && s.trialUsed
              case Denied(_) => false
  {
    if IsFirstBlock(verdicts, k) {
      FirstBlockWins(Evaluate(s, required), verdicts, k);
    } else {
      NoBlockNoWord(Evaluate(s, required), verdicts);
    }
  }

  lemma {:induction false} NoBlockNoWord(d: Decision, verdicts: seq<Option<Decision>>)
    ensures (forall j :: 0 <= j < |verdicts| ==> !IsBlock(verdicts[j])) ==> ApplyGates(d, verdicts) == d
  {
    if |verdicts| > 0 && forall j :: 0 <= j < |verdicts| ==> !IsBlock(verdicts[j]) {
      assert forall j :: 0 <= j < |verdicts[1..]| ==> verdicts[1..][j] == verdicts[j + 1];
      NoBlockNoWord(d, verdicts[1..]);
    }
  }
}
