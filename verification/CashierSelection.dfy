/**
 The least-loaded choice of a cashier, and what repeating it achieves.
 Source: apps/api/src/assignments/cashier-selection.ts.
*/
module CashierSelection {
  import opened Arithmetic
  import opened Wrappers

  datatype CashierLoad<T> = CashierLoad(userId: T, activeClientCount: int)

  datatype RangeError = COUNT_INVALID | INDEX_INVALID

  const MAX_SAFE_INTEGER := 9007199254740991

  predicate IsSafeInteger(x: int) { -MAX_SAFE_INTEGER <= x <= MAX_SAFE_INTEGER }

  ghost predicate CountsValid<T>(candidates: seq<CashierLoad<T>>) {
    forall c | c in candidates :: IsSafeInteger(c.activeClientCount) && c.activeClientCount >= 0
  }

  function Tied<T>(candidates: seq<CashierLoad<T>>, minimum: int): (tied: seq<CashierLoad<T>>)
    ensures |tied| <= |candidates|
    ensures forall k :: 0 <= k < |tied| ==> tied[k] in candidates && tied[k].activeClientCount == minimum
  {
    if candidates == [] then []
    else if candidates[0].activeClientCount == minimum then [candidates[0]] + Tied(candidates[1..], minimum)
    else Tied(candidates[1..], minimum)
  }

  function Minimum<T>(candidates: seq<CashierLoad<T>>): int
    requires candidates != []
  {
    if |candidates| == 1 then candidates[0].activeClientCount
    else Min(candidates[0].activeClientCount, Minimum(candidates[1..]))
  }

  /** `c` is one of the candidates and no candidate has fewer clients. */
  ghost predicate LeastLoaded<T>(c: CashierLoad<T>, candidates: seq<CashierLoad<T>>) {
    c in candidates && forall k | 0 <= k < |candidates| :: c.activeClientCount <= candidates[k].activeClientCount
  }

  lemma {:induction false} MinimumIsLeast<T>(candidates: seq<CashierLoad<T>>, m: int)
    requires candidates != []
    ensures m == Minimum(candidates) <==>
              && (exists k :: 0 <= k < |candidates| && candidates[k].activeClientCount == m)
              && forall k | 0 <= k < |candidates| :: m <= candidates[k].activeClientCount
  {
    if |candidates| > 1 {
      var rest := candidates[1..];
      MinimumIsLeast(rest, Minimum(rest));
      var k :| 0 <= k < |rest| && rest[k].activeClientCount == Minimum(rest);
      assert candidates[k + 1].activeClientCount == Minimum(rest);
      assert forall j | 1 <= j < |candidates| :: candidates[j] == rest[j - 1];
      assert Minimum(candidates) == Min(candidates[0].activeClientCount, Minimum(rest));
    }
  }

  /** The tie that the random index is drawn over holds exactly the least-loaded candidates. */
  lemma {:induction false} TiedAreLeastLoaded<T>(candidates: seq<CashierLoad<T>>, c: CashierLoad<T>)
    requires candidates != []
    ensures c in Tied(candidates, Minimum(candidates)) <==> LeastLoaded(c, candidates)
  {
    MinimumIsLeast(candidates, Minimum(candidates));
    if LeastLoaded(c, candidates) {
      MinimumIsLeast(candidates, c.activeClientCount);
      TiedHasAll(candidates, c);
    }
  }

  lemma TieIsNonempty<T>(candidates: seq<CashierLoad<T>>)
    requires candidates != []
    ensures |Tied(candidates, Minimum(candidates))| > 0
  {
    MinimumIsLeast(candidates, Minimum(candidates));
    var k :| 0 <= k < |candidates| && candidates[k].activeClientCount == Minimum(candidates);
    TiedHasAll(candidates, candidates[k]);
  }

  lemma {:induction false} TiedHasAll<T>(candidates: seq<CashierLoad<T>>, c: CashierLoad<T>)
    requires c in candidates
    ensures c in Tied(candidates, c.activeClientCount)
  {
    if candidates[0] != c {
      assert c in candidates[1..];
      TiedHasAll(candidates[1..], c);
    }
  }

  /** The error cases are exactly an invalid count and an index outside the tie; otherwise the index
      picks from the least-loaded candidates, so any of them can be the result. */
  method SelectLeastLoadedCashier<T>(candidates: seq<CashierLoad<T>>, randomIndex: nat -> int)
    returns (r: Result<Option<CashierLoad<T>>, RangeError>)
    requires |candidates| < 0x1_0000_0000 // a JavaScript array
    ensures candidates == [] <==> r == Ok(None)
    ensures candidates != [] ==>
              var tied := Tied(candidates, Minimum(candidates));
              r == if !CountsValid(candidates) then Err(COUNT_INVALID)
                   else if 0 <= randomIndex(|tied|) < |tied| then Ok(Some(tied[randomIndex(|tied|)]))
                   else Err(INDEX_INVALID)
    ensures r.Ok? && r.value.Some? ==> LeastLoaded(r.value.value, candidates)
    ensures r == Err(COUNT_INVALID) <==>
              exists c | c in candidates :: c.activeClientCount < 0 || c.activeClientCount > 9007199254740991
  {
    if |candidates| == 0 { return Ok(None); }
    var minimum: Option<int> := None; // positive infinity
    var i := 0;
    while i < |candidates|
      invariant i <= |candidates|
      invariant CountsValid(candidates[..i])
      invariant minimum == None <==> i == 0
      invariant minimum.Some? ==>
                  && (exists k :: 0 <= k < i && candidates[k].activeClientCount == minimum.value)
                  && forall k | 0 <= k < i :: minimum.value <= candidates[k].activeClientCount
    {
      var count := candidates[i].activeClientCount;
      if !IsSafeInteger(count) || count < 0 {
        assert candidates[i] in candidates;
        return Err(COUNT_INVALID);
      }
      minimum := if minimum.Some? && minimum.value <= count then minimum else Some(count);
      i := i + 1;
    }
    assert candidates[..i] == candidates;
    MinimumIsLeast(candidates, minimum.value);
    var tied := Tied(candidates, minimum.value);
    var selectedIndex := randomIndex(|tied|);
    if !IsSafeInteger(selectedIndex) || selectedIndex < 0 || selectedIndex >= |tied| {
      return Err(INDEX_INVALID);
    }
    assert tied[selectedIndex] in tied;
    TiedAreLeastLoaded(candidates, tied[selectedIndex]);
    return Ok(Some(tied[selectedIndex]));
  }

  // ------------------------------------------------------------------ repeated selection

  function Sum(loads: seq<nat>): nat {
    if loads == [] then 0 else loads[0] + Sum(loads[1..])
  }

  function MaxOf(loads: seq<nat>): nat {
    if loads == [] then 0 else if loads[0] >= MaxOf(loads[1..]) then loads[0] else MaxOf(loads[1..])
  }

  function CeilDiv(a: nat, b: nat): (q: nat)
    requires b > 0
  {
    (a + b - 1) / b
  }

  /** Each pick names an index whose load is then the smallest. */
  ghost predicate Greedy(loads: seq<nat>, picks: seq<nat>)
    decreases |picks|
  {
    picks == []
    || (picks[0] < |loads|
        && (forall j | 0 <= j < |loads| :: loads[picks[0]] <= loads[j])
        && Greedy(loads[picks[0] := loads[picks[0]] + 1], picks[1..]))
  }

  ghost function Place(loads: seq<nat>, picks: seq<nat>): (after: seq<nat>)
    requires Greedy(loads, picks)
    ensures |after| == |loads|
    decreases |picks|
  {
    if picks == [] then loads else Place(loads[picks[0] := loads[picks[0]] + 1], picks[1..])
  }

  lemma {:induction false} SumUpdate(loads: seq<nat>, i: nat)
    requires i < |loads|
    ensures Sum(loads[i := loads[i] + 1]) == Sum(loads) + 1
  {
    var next := loads[i := loads[i] + 1];
    if i == 0 {
      assert next[1..] == loads[1..];
    } else {
      assert next[1..] == loads[1..][i - 1 := loads[i] + 1];
      SumUpdate(loads[1..], i - 1);
    }
  }

  lemma {:induction false} MaxBounds(loads: seq<nat>, bound: nat)
    ensures MaxOf(loads) <= bound <==> forall j | 0 <= j < |loads| :: loads[j] <= bound
  {
    if loads != [] {
      MaxBounds(loads[1..], bound);
      assert forall j | 1 <= j < |loads| :: loads[j] == loads[1..][j - 1];
    }
  }

  lemma {:induction false} SumBounds(loads: seq<nat>, low: nat, high: nat)
    requires forall j | 0 <= j < |loads| :: low <= loads[j] <= high
    ensures |loads| * low <= Sum(loads) <= |loads| * high
  {
    if loads != [] {
      SumBounds(loads[1..], low, high);
      assert |loads| * low == low + |loads[1..]| * low;
      assert |loads| * high == high + |loads[1..]| * high;
    }
  }

  lemma CeilDivLeast(a: nat, b: nat, q: nat)
    requires b > 0
    ensures a <= b * q <==> CeilDiv(a, b) <= q
  {
    var c := CeilDiv(a, b);
    assert b * c <= a + b - 1 < b * c + b;
    if c <= q {
      assert b * c <= b * q by { Scale(c, q, b); }
    } else {
      assert b * (q + 1) <= b * c by { Scale(q + 1, c, b); }
    }
  }

  /** Any spread of k more clients needs a maximum of at least both bounds. */
  lemma SpreadNeeds(loads: seq<nat>, other: seq<nat>)
    requires loads != [] && |other| == |loads|
    requires forall j | 0 <= j < |loads| :: loads[j] <= other[j]
    ensures Max(MaxOf(loads), CeilDiv(Sum(other), |loads|)) <= MaxOf(other)
  {
    MaxBounds(other, MaxOf(other));
    MaxBounds(loads, MaxOf(other));
    SumBounds(other, 0, MaxOf(other));
    CeilDivLeast(Sum(other), |loads|, MaxOf(other));
  }

  lemma {:induction false} GreedyKeepsBound(loads: seq<nat>, picks: seq<nat>, bound: nat)
    requires loads != [] && Greedy(loads, picks)
    requires MaxOf(loads) <= bound && Sum(loads) + |picks| <= |loads| * bound
    ensures Sum(Place(loads, picks)) == Sum(loads) + |picks|
    ensures MaxOf(Place(loads, picks)) <= bound
    ensures forall j | 0 <= j < |loads| :: loads[j] <= Place(loads, picks)[j]
    decreases |picks|
  {
    if picks != [] {
      var i := picks[0];
      var next := loads[i := loads[i] + 1];
      SumUpdate(loads, i);
      MaxBounds(loads, bound);
      if loads[i] >= bound {
        SumBounds(loads, bound, bound);
        assert false;
      }
      MaxBounds(next, bound);
      GreedyKeepsBound(next, picks[1..], bound);
    }
  }

  /** `other` spreads k more clients over the same cashiers, moving nobody away. */
  ghost predicate Spreads(loads: seq<nat>, other: seq<nat>, k: nat) {
    |other| == |loads| && Sum(other) == Sum(loads) + k && forall j | 0 <= j < |loads| :: loads[j] <= other[j]
  }

  /** max(old maximum, ceil((sum + k) / n)). */
  ghost function LeastMaximum(loads: seq<nat>, k: nat): nat
    requires loads != []
  {
    Max(MaxOf(loads), CeilDiv(Sum(loads) + k, |loads|))
  }

  lemma SpreadsNeed(loads: seq<nat>, other: seq<nat>, k: nat)
    requires loads != [] && Spreads(loads, other, k)
    ensures LeastMaximum(loads, k) <= MaxOf(other)
  {
    SpreadNeeds(loads, other);
  }

  lemma GreedyReaches(loads: seq<nat>, picks: seq<nat>)
    requires loads != [] && Greedy(loads, picks)
    ensures Spreads(loads, Place(loads, picks), |picks|)
    ensures MaxOf(Place(loads, picks)) <= LeastMaximum(loads, |picks|)
  {
    CeilDivLeast(Sum(loads) + |picks|, |loads|, LeastMaximum(loads, |picks|));
    GreedyKeepsBound(loads, picks, LeastMaximum(loads, |picks|));
  }

  /** Placing k clients one by one with the least loaded, however ties are broken, ends with the
      maximum max(old maximum, ceil((sum + k) / n)), and no spread of the k clients does better. */
  lemma GreedyIsOptimal(loads: seq<nat>, picks: seq<nat>)
    requires loads != [] && Greedy(loads, picks)
    ensures Spreads(loads, Place(loads, picks), |picks|)
    ensures MaxOf(Place(loads, picks)) == LeastMaximum(loads, |picks|)
    ensures forall other: seq<nat> | Spreads(loads, other, |picks|) :: MaxOf(Place(loads, picks)) <= MaxOf(other)
  {
    GreedyReaches(loads, picks);
    SpreadsNeed(loads, Place(loads, picks), |picks|);
    var best := MaxOf(Place(loads, picks));
    assert best == LeastMaximum(loads, |picks|);
    forall other: seq<nat> | Spreads(loads, other, |picks|) ensures best <= MaxOf(other) {
      SpreadsNeed(loads, other, |picks|);
    }
  }
}
