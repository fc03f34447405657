/** How a summary splits its chunks into model calls. */
module SummaryPlan {

  // ------------------------------------------------------------------ sums and intervals

  function Sum(lengths: seq<nat>, a: nat, b: nat): (s: nat)
    requires b <= |lengths|
    ensures a >= b ==> s == 0
    decreases b
  {
    if a >= b then 0 else Sum(lengths, a, b - 1) + lengths[b - 1]
  }

  function Interval(a: nat, b: nat): (r: seq<nat>)
    ensures |r| == if a < b then b - a else 0
    ensures forall k :: 0 <= k < |r| ==> r[k] == a + k
    decreases b
  {
    if a >= b then [] else Interval(a, b - 1) + [b - 1]
  }

  lemma {:induction false} LaterStartIsSmaller(lengths: seq<nat>, a: nat, a': nat, b: nat)
    requires a <= a' && b <= |lengths|
    ensures Sum(lengths, a', b) <= Sum(lengths, a, b)
    decreases b
  {
    if a < b { LaterStartIsSmaller(lengths, a, a', b - 1); }
  }

  lemma {:induction false} SumSplits(lengths: seq<nat>, a: nat, m: nat, b: nat)
    requires a <= m <= b <= |lengths|
    ensures Sum(lengths, a, b) == Sum(lengths, a, m) + Sum(lengths, m, b)
    decreases b
  {
    if m < b { SumSplits(lengths, a, m, b - 1); }
  }

  // ------------------------------------------------------------------ partitions

  function Concat(parts: seq<seq<nat>>): seq<nat> {
    if |parts| == 0 then [] else Concat(parts[..|parts| - 1]) + parts[|parts| - 1]
  }

  ghost predicate NoEmptyPart(parts: seq<seq<nat>>) {
    forall k :: 0 <= k < |parts| ==> |parts[k]| > 0
  }

  /** Non-empty parts that, one after another, are the indices `0..n`. */
  ghost predicate IsPartition(parts: seq<seq<nat>>, n: nat) {
    NoEmptyPart(parts) && Concat(parts) == Interval(0, n)
  }

  /** The start of the last part; its end is `n`. */
  function LastStart(parts: seq<seq<nat>>, n: nat): int
    requires |parts| > 0
  {
    n - |parts[|parts| - 1]|
  }

  function DropLast(part: seq<nat>): seq<nat>
    requires |part| > 0
  {
    part[..|part| - 1]
  }

  /** Take the last index away. */
  function Shrink(parts: seq<seq<nat>>): seq<seq<nat>>
    requires |parts| > 0 && |parts[|parts| - 1]| > 0
  {
    var last := parts[|parts| - 1];
    if |last| == 1 then parts[..|parts| - 1] else parts[..|parts| - 1] + [DropLast(last)]
  }

  /** The last part of a partition is the interval up to `n`. */
  lemma LastPart(parts: seq<seq<nat>>, n: nat)
    requires IsPartition(parts, n) && n > 0
    ensures |parts| > 0
    ensures var last := parts[|parts| - 1];
            0 < |last| <= n && last == Interval(n - |last|, n)
  {
    var last := parts[|parts| - 1];
    var front := Concat(parts[..|parts| - 1]);
    assert front + last == Interval(0, n);
    forall k | 0 <= k < |last| ensures last[k] == n - |last| + k {
      assert (front + last)[|front| + k] == last[k];
    }
  }

  lemma ShrinkIsPartition(parts: seq<seq<nat>>, n: nat)
    requires IsPartition(parts, n) && n > 0
    ensures |parts| > 0 && |parts[|parts| - 1]| > 0 && IsPartition(Shrink(parts), n - 1)
  {
    LastPart(parts, n);
    var last := parts[|parts| - 1];
    var front := parts[..|parts| - 1];
    var whole := Concat(front) + last;
    assert whole[..n - 1] == Concat(front) + DropLast(last);
    assert Interval(0, n)[..n - 1] == Interval(0, n - 1);
    if |last| == 1 {
      assert Concat(front) + DropLast(last) == Concat(front);
    } else {
      var shrunk := front + [DropLast(last)];
      assert shrunk[..|shrunk| - 1] == front;
    }
  }

  function Size(lengths: seq<nat>, part: seq<nat>): nat
    requires forall k :: 0 <= k < |part| ==> part[k] < |lengths|
  {
    if |part| == 0 then 0 else Size(lengths, DropLast(part)) + lengths[part[|part| - 1]]
  }

  lemma {:induction false} SizeOfInterval(lengths: seq<nat>, a: nat, b: nat)
    requires a <= b <= |lengths|
    ensures Size(lengths, Interval(a, b)) == Sum(lengths, a, b)
    decreases b
  {
    hide Interval;
    if a < b {
      SizeOfInterval(lengths, a, b - 1);
      var part := Interval(a, b);
      assert DropLast(part) == Interval(a, b - 1) && part[|part| - 1] == b - 1;
    }
  }

  ghost predicate Within(lengths: seq<nat>, limit: int, part: seq<nat>) {
    (forall k :: 0 <= k < |part| ==> part[k] < |lengths|) && Size(lengths, part) <= limit
  }

  ghost predicate AllFit(lengths: seq<nat>, limit: int, parts: seq<seq<nat>>) {
    forall k :: 0 <= k < |parts| ==> Within(lengths, limit, parts[k])
  }

  // ------------------------------------------------------------------ the plan

  /** The greedy parts of the first `k` chunks: continue the last part while it fits. */
  function GreedyParts(lengths: seq<nat>, limit: int, k: nat): (parts: seq<seq<nat>>)
    requires k <= |lengths|
    ensures NoEmptyPart(parts)
    ensures k > 0 ==> |parts| > 0 && |parts[|parts| - 1]| <= k
  {
    if k == 0 then []
    else
      var parts := GreedyParts(lengths, limit, k - 1);
      if |parts| > 0 && Sum(lengths, LastStart(parts, k - 1), k) <= limit then
        parts[..|parts| - 1] + [parts[|parts| - 1] + [k - 1]]
      else parts + [[k - 1]]
  }

  /** `plan_summary_parts`: one pass if everything fits one, otherwise greedy parts. */
  function Plan(lengths: seq<nat>, singlePass: int, partChars: int): seq<seq<nat>> {
    if Sum(lengths, 0, |lengths|) <= singlePass then
      (if |lengths| > 0 then [Interval(0, |lengths|)] else [])
    else GreedyParts(lengths, partChars, |lengths|)
  }

  lemma {:induction false} GreedyIsPartition(lengths: seq<nat>, limit: int, k: nat)
    requires k <= |lengths|
    ensures IsPartition(GreedyParts(lengths, limit, k), k)
  {
    if k > 0 {
      GreedyIsPartition(lengths, limit, k - 1);
      var before := GreedyParts(lengths, limit, k - 1);
      var parts := GreedyParts(lengths, limit, k);
      assert Interval(0, k) == Interval(0, k - 1) + [k - 1];
      if |parts| == |before| {
        var last := before[|before| - 1];
        assert parts[..|parts| - 1] == before[..|before| - 1];
        assert Concat(before[..|before| - 1]) + (last + [k - 1]) == Concat(before) + [k - 1];
      } else {
        assert parts[..|parts| - 1] == before;
      }
    }
  }

  /** The next chunk either joins the last part, which still fits, or starts a part of its own. */
  lemma GreedyGrows(lengths: seq<nat>, limit: int, k: nat)
    requires 0 < k <= |lengths|
    ensures var before, parts := GreedyParts(lengths, limit, k - 1), GreedyParts(lengths, limit, k);
            if k > 1 && Sum(lengths, LastStart(before, k - 1), k) <= limit
            then |parts| == |before| && LastStart(parts, k) == LastStart(before, k - 1)
              && parts[..|parts| - 1] == before[..|parts| - 1]
            else |parts| == |before| + 1 && parts[..|before|] == before && parts[|before|] == [k - 1]
  {
    hide Sum;
  }

  ghost predicate LongPartsFit(lengths: seq<nat>, limit: int, parts: seq<seq<nat>>) {
    forall i :: 0 <= i < |parts| && |parts[i]| > 1 ==> Within(lengths, limit, parts[i])
  }

  lemma LongPartsGrow(lengths: seq<nat>, limit: int, before: seq<seq<nat>>, parts: seq<seq<nat>>)
    requires |parts| > 0 && |parts| - 1 <= |before| && parts[..|parts| - 1] == before[..|parts| - 1]
    requires LongPartsFit(lengths, limit, before)
    requires |parts[|parts| - 1]| > 1 ==> Within(lengths, limit, parts[|parts| - 1])
    ensures LongPartsFit(lengths, limit, parts)
  {
    hide Within;
    forall i | 0 <= i < |parts| && |parts[i]| > 1 ensures Within(lengths, limit, parts[i]) {
      if i < |parts| - 1 { assert parts[i] == parts[..|parts| - 1][i] == before[i]; }
    }
  }

  /** A step keeps all parts but the last. */
  lemma FrontStays(lengths: seq<nat>, limit: int, k: nat)
    requires 0 < k <= |lengths|
    ensures var before, parts := GreedyParts(lengths, limit, k - 1), GreedyParts(lengths, limit, k);
            0 < |parts| <= |before| + 1 && parts[..|parts| - 1] == before[..|parts| - 1]
  {
    hide GreedyParts, Sum, LastStart;
    GreedyGrows(lengths, limit, k);
    LastPart(GreedyParts(lengths, limit, k), k) by { GreedyIsPartition(lengths, limit, k); }
  }

  lemma LastPartFits(lengths: seq<nat>, limit: int, k: nat)
    requires 0 < k <= |lengths|
    ensures var parts := GreedyParts(lengths, limit, k);
            |parts| > 0 && (|parts[|parts| - 1]| > 1 ==> Within(lengths, limit, parts[|parts| - 1]))
  {
    hide GreedyParts, Sum, IsPartition, Within, Interval;
    GreedyIsPartition(lengths, limit, k);
    GreedyGrows(lengths, limit, k);
    LastPart(GreedyParts(lengths, limit, k), k);
    var parts := GreedyParts(lengths, limit, k);
    IntervalIsWithin(lengths, limit, parts[|parts| - 1], k);
  }

  /** Every greedy part with more than one chunk holds no more than the limit. */
  lemma {:induction false} GreedyFits(lengths: seq<nat>, limit: int, k: nat)
    requires k <= |lengths|
    ensures LongPartsFit(lengths, limit, GreedyParts(lengths, limit, k))
  {
    if k > 0 {
      hide GreedyParts, Within, LongPartsFit;
      GreedyFits(lengths, limit, k - 1);
      FrontStays(lengths, limit, k);
      LastPartFits(lengths, limit, k);
      LongPartsGrow(lengths, limit, GreedyParts(lengths, limit, k - 1), GreedyParts(lengths, limit, k));
    }
  }

  /** For the interval that ends at `k`, fitting is a matter of the sum. */
  lemma IntervalIsWithin(lengths: seq<nat>, limit: int, part: seq<nat>, k: nat)
    requires |part| <= k <= |lengths| && part == Interval(k - |part|, k)
    ensures Within(lengths, limit, part) <==> Sum(lengths, k - |part|, k) <= limit
  {
    SizeOfInterval(lengths, k - |part|, k);
  }

  /** Exchange argument: greedy never uses more parts than any fitting split, and with equally many
      its last part starts no earlier. */
  lemma {:induction false} GreedyStaysAhead(lengths: seq<nat>, limit: int, k: nat, split: seq<seq<nat>>)
    requires k <= |lengths| && IsPartition(split, k) && AllFit(lengths, limit, split)
    ensures var parts := GreedyParts(lengths, limit, k);
            && |parts| <= |split|
            && (k > 0 && |parts| == |split| ==> LastStart(split, k) <= LastStart(parts, k))
  {
    if k > 0 {
      LastPart(split, k);
      ShrinkIsPartition(split, k);
      LastSum(lengths, limit, k, split);
      ShrinkFits(lengths, limit, split, k);
      GreedyStaysAhead(lengths, limit, k - 1, Shrink(split));
      GreedyGrows(lengths, limit, k);
      ShrinkShape(split, k);
      hide *;
      var before := GreedyParts(lengths, limit, k - 1);
      if k > 1 && |split[|split| - 1]| > 1 && |before| == |split| {
        LaterStartIsSmaller(lengths, LastStart(split, k), LastStart(before, k - 1), k);
      }
      assert |GreedyParts(lengths, limit, k)| == |before| + 1 ==> LastStart(GreedyParts(lengths, limit, k), k) == k - 1
      by { StartOfOne(GreedyParts(lengths, limit, k), k); }
      StartOfOne(split, k);
    }
  }

  lemma StartOfOne(parts: seq<seq<nat>>, k: nat)
    ensures |parts| > 0 && |parts[|parts| - 1]| == 1 ==> LastStart(parts, k) == k - 1
    ensures |parts| > 0 && |parts[|parts| - 1]| > 0 ==> LastStart(parts, k) <= k - 1
  {}

  lemma LastSum(lengths: seq<nat>, limit: int, k: nat, split: seq<seq<nat>>)
    requires 0 < k <= |lengths| && IsPartition(split, k) && AllFit(lengths, limit, split)
    ensures |split| > 0 && 0 <= LastStart(split, k) && Sum(lengths, LastStart(split, k), k) <= limit
  {
    LastPart(split, k);
    var last := split[|split| - 1];
    IntervalIsWithin(lengths, limit, last, k);
    assert Within(lengths, limit, last);
  }

  lemma ShrinkShape(split: seq<seq<nat>>, k: nat)
    requires |split| > 0 && |split[|split| - 1]| > 0 && k > 0
    ensures if |split[|split| - 1]| == 1 then |Shrink(split)| == |split| - 1
            else |Shrink(split)| == |split| && LastStart(Shrink(split), k - 1) == LastStart(split, k)
  {}

  lemma ShrinkFits(lengths: seq<nat>, limit: int, split: seq<seq<nat>>, k: nat)
    requires 0 < k <= |lengths| && IsPartition(split, k) && AllFit(lengths, limit, split)
    requires |split| > 0 && |split[|split| - 1]| > 0
    ensures AllFit(lengths, limit, Shrink(split))
  {
    var last := split[|split| - 1];
    assert Within(lengths, limit, last);
    forall i | 0 <= i < |Shrink(split)| ensures Within(lengths, limit, Shrink(split)[i]) {
      if i < |split| - 1 { assert Within(lengths, limit, split[i]); }
    }
  }

  /** THE PLAN IS RIGHT. Its parts are non-empty and, one after another, all the chunks in order; when
      it splits, every part with more than one chunk fits. */
  lemma PlanIsPartition(lengths: seq<nat>, singlePass: int, partChars: int)
    ensures IsPartition(Plan(lengths, singlePass, partChars), |lengths|)
    ensures Sum(lengths, 0, |lengths|) > singlePass ==>
              LongPartsFit(lengths, partChars, Plan(lengths, singlePass, partChars))
  {
    GreedyIsPartition(lengths, partChars, |lengths|);
    GreedyFits(lengths, partChars, |lengths|);
    NoPartIsPartition();
    hide GreedyParts, Sum, IsPartition, LongPartsFit;
    if |lengths| > 0 { OnePartIsPartition(|lengths|); }
  }

  /** ONE PASS. A text that fits one pass is one part, whatever the size of a part; and none without a chunk. */
  lemma OnePassIsOnePart(lengths: seq<nat>, singlePass: int, partChars: int)
    requires Sum(lengths, 0, |lengths|) <= singlePass
    ensures var plan := Plan(lengths, singlePass, partChars);
            if |lengths| == 0 then plan == [] else |plan| == 1 && plan[0] == Interval(0, |lengths|)
  {}

  /** Parts of several chunks are within the size of a part, but for a longer text that still fits one pass. */
  lemma LongPartsFitExactly(lengths: seq<nat>, singlePass: int, partChars: int)
    ensures LongPartsFit(lengths, partChars, Plan(lengths, singlePass, partChars)) <==>
            var total := Sum(lengths, 0, |lengths|);
            total > singlePass || total <= partChars || |lengths| <= 1
  {
    hide Sum, Plan, Interval, Within, LongPartsFit, IsPartition;
    PlanIsPartition(lengths, singlePass, partChars);
    if Sum(lengths, 0, |lengths|) <= singlePass {
      OnePassIsOnePart(lengths, singlePass, partChars);
      OnePartFits(lengths, partChars, Plan(lengths, singlePass, partChars));
      IntervalIsWithin(lengths, partChars, Interval(0, |lengths|), |lengths|);
    }
  }

  lemma OnePartFits(lengths: seq<nat>, limit: int, parts: seq<seq<nat>>)
    requires |parts| <= 1
    ensures LongPartsFit(lengths, limit, parts) <==>
            |parts| == 0 || |parts[0]| <= 1 || Within(lengths, limit, parts[0])
  {
    hide Within;
  }

  lemma NoPartIsPartition()
    ensures IsPartition([], 0)
  {}

  lemma OnePartIsPartition(n: nat)
    requires n > 0
    ensures IsPartition([Interval(0, n)], n)
  {
    var parts := [Interval(0, n)];
    assert parts[..0] == [];
    assert Concat(parts) == [] + Interval(0, n);
  }

  /** THE PLAN IS OPTIMAL. No in-order split into parts that fit uses fewer model calls. */
  lemma PlanIsOptimal(lengths: seq<nat>, singlePass: int, partChars: int, split: seq<seq<nat>>)
    requires IsPartition(split, |lengths|) && AllFit(lengths, partChars, split)
    ensures |Plan(lengths, singlePass, partChars)| <= |split|
  {
    GreedyStaysAhead(lengths, partChars, |lengths|, split);
    if |lengths| > 0 { LastPart(split, |lengths|); }
  }

  /** The loop of the program: a list of lists with a running size. */
  method PlanSummaryParts(lengths: seq<nat>, singlePass: int, partChars: int) returns (parts: seq<seq<nat>>)
    ensures parts == Plan(lengths, singlePass, partChars)
  {
    var total := SumOf(lengths);
    if total <= singlePass {
      return if |lengths| > 0 then [Interval(0, |lengths|)] else [];
    }
    parts := FillParts(lengths, partChars);
  }

  /** The loop over the chunks; empty parts are left out at the end. */
  method FillParts(lengths: seq<nat>, partChars: int) returns (parts: seq<seq<nat>>)
    ensures parts == GreedyParts(lengths, partChars, |lengths|)
  {
    hide GreedyParts, Sum;
    NothingYet(lengths, partChars);
    parts := [[]];
    var size := 0;
    for i := 0 to |lengths|
      invariant |parts| > 0 && |parts[|parts| - 1]| <= i
      invariant if i == 0 then parts == [[]] else parts == GreedyParts(lengths, partChars, i)
      invariant size == Sum(lengths, LastStart(parts, i), i)
    {
      ghost var before := parts;
      GreedyStep(lengths, partChars, i, parts);
      if |parts[|parts| - 1]| > 0 && size + lengths[i] > partChars {
        parts := parts + [[]];
        size := 0;
        OpenedPart(before, i);
      }
      parts := parts[..|parts| - 1] + [parts[|parts| - 1] + [i]];
      size := size + lengths[i];
    }
    if |lengths| == 0 {
      parts := [];
    }
  }

  lemma NothingYet(lengths: seq<nat>, limit: int)
    ensures GreedyParts(lengths, limit, 0) == [] && Sum(lengths, LastStart([[]], 0), 0) == 0
  {}

  lemma OpenedPart(parts: seq<seq<nat>>, i: nat)
    ensures var more := parts + [[]];
            more[..|more| - 1] == parts && more[|more| - 1] + [i] == [i]
  {}

  /** What the next chunk does to the greedy parts, in terms of the running size. */
  lemma GreedyStep(lengths: seq<nat>, limit: int, i: nat, parts: seq<seq<nat>>)
    requires i < |lengths| && |parts| > 0 && |parts[|parts| - 1]| <= i
    requires if i == 0 then parts == [[]] else parts == GreedyParts(lengths, limit, i)
    ensures Sum(lengths, LastStart(parts, i), i + 1) == Sum(lengths, LastStart(parts, i), i) + lengths[i]
    ensures Sum(lengths, i, i + 1) == lengths[i]
    ensures GreedyParts(lengths, limit, i + 1)
         == if |parts[|parts| - 1]| > 0 && Sum(lengths, LastStart(parts, i), i) + lengths[i] > limit
            then parts + [[i]]
            else parts[..|parts| - 1] + [parts[|parts| - 1] + [i]]
  {
    if i == 0 {
      assert parts[0] + [0] == [0] && parts[..0] == [];
      assert GreedyParts(lengths, limit, 0) + [[0]] == [[0]];
    }
  }

  method SumOf(lengths: seq<nat>) returns (total: nat)
    ensures total == Sum(lengths, 0, |lengths|)
  {
    total := 0;
    for i := 0 to |lengths|
      invariant total == Sum(lengths, 0, i)
    {
      total := total + lengths[i];
    }
  }
}
