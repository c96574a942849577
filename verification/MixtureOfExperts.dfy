/**
 Mixture-of-experts dispatch (src/quantized_llama.rs, `MlpOrMoe::forward`): rows are routed to their top-k
 experts, each expert runs once on its batch of rows, and the weighted results are scattered back.
 Arithmetic is over the reals.
 */
module MixtureOfExperts {
  import opened Wrappers

  type Vec = seq<real>

  // ---------------------------------------------------------------- stable top-k

  /** Expert `i` goes before expert `j`: larger weight first, and on equal weights the lower index first. */
  predicate Before(rw: seq<real>, i: nat, j: nat)
    requires i < |rw| && j < |rw|
  {
    rw[i] > rw[j] || (rw[i] == rw[j] && i < j)
  }

  predicate Ranks(rw: seq<real>, order: seq<nat>) {
    forall a :: 0 <= a < |order| ==> order[a] < |rw|
  }

  predicate Sorted(rw: seq<real>, order: seq<nat>)
    requires Ranks(rw, order)
  {
    forall a, b :: 0 <= a < b < |order| ==> Before(rw, order[a], order[b])
  }

  /** Position at which index `i`, larger than every index in `order`, goes in a stable descending sort. */
  function Slot(rw: seq<real>, order: seq<nat>, i: nat): (p: nat)
    requires Ranks(rw, order) && i < |rw|
    ensures p <= |order|
    ensures forall a :: 0 <= a < p ==> rw[order[a]] >= rw[i]
    ensures p < |order| ==> rw[order[p]] < rw[i]
  {
    if order == [] || rw[order[0]] < rw[i] then 0 else 1 + Slot(rw, order[1..], i)
  }

  function InsertAt(order: seq<nat>, p: nat, v: nat): (order': seq<nat>)
    requires p <= |order|
    ensures |order'| == |order| + 1
  {
    order[..p] + [v] + order[p..]
  }

  /** The first `n` expert indices in stable descending order of weight. */
  function RankFirst(rw: seq<real>, n: nat): (order: seq<nat>)
    requires n <= |rw|
    ensures |order| == n && forall a :: 0 <= a < n ==> order[a] < n
  {
    if n == 0 then [] else
      var order := RankFirst(rw, n - 1);
      InsertAt(order, Slot(rw, order, n - 1), n - 1)
  }

  /** Index `v`, larger than all in the list, goes after those that weigh no less and before those that weigh less. */
  lemma InsertSorted(rw: seq<real>, order: seq<nat>, p: nat, v: nat)
    requires v < |rw| && p <= |order| && (forall a :: 0 <= a < |order| ==> order[a] < v)
    requires Ranks(rw, order) && Sorted(rw, order)
    requires forall a :: 0 <= a < p ==> rw[order[a]] >= rw[v]
    requires p < |order| ==> rw[order[p]] < rw[v]
    ensures Ranks(rw, InsertAt(order, p, v)) && Sorted(rw, InsertAt(order, p, v))
  {
    forall b | p <= b < |order|
      ensures rw[order[b]] < rw[v]
    {
      assert b == p || Before(rw, order[p], order[b]);
    }
  }

  lemma {:induction false} RankFirstSorted(rw: seq<real>, n: nat)
    requires n <= |rw|
    ensures Sorted(rw, RankFirst(rw, n))
  {
    if n > 0 {
      RankFirstSorted(rw, n - 1);
      var order := RankFirst(rw, n - 1);
      InsertSorted(rw, order, Slot(rw, order, n - 1), n - 1);
    }
  }

  lemma InsertedHas(order: seq<nat>, p: nat, v: nat, i: nat)
    requires p <= |order| && (i == v || i in order)
    ensures i in InsertAt(order, p, v)
  {
    assert order == order[..p] + order[p..];
  }

  lemma {:induction false} RankFirstComplete(rw: seq<real>, n: nat, i: nat)
    requires i < n <= |rw|
    ensures i in RankFirst(rw, n)
  {
    var order := RankFirst(rw, n - 1);
    if i < n - 1 {
      RankFirstComplete(rw, n - 1, i);
    }
    InsertedHas(order, Slot(rw, order, n - 1), n - 1, i);
  }

  /** The experts of a row: the first `k` in stable descending order, or all if there are fewer. */
  function Selected(rw: seq<real>, k: nat): (sel: seq<nat>)
    ensures |sel| == Min(k, |rw|) && forall a :: 0 <= a < |sel| ==> sel[a] < |rw|
  {
    RankFirst(rw, |rw|)[..Min(k, |rw|)]
  }

  predicate Distinct(sel: seq<nat>) {
    forall a, b :: 0 <= a < b < |sel| ==> sel[a] != sel[b]
  }

  /** Every expert has a rank, and what ranks earlier goes before it. */
  lemma RankOf(rw: seq<real>, i: nat) returns (b: nat)
    requires i < |rw|
    ensures b < |rw| && RankFirst(rw, |rw|)[b] == i
    ensures forall a :: 0 <= a < b ==> Before(rw, RankFirst(rw, |rw|)[a], i)
  {
    RankFirstComplete(rw, |rw|, i);
    RankFirstSorted(rw, |rw|);
    b :| 0 <= b < |rw| && RankFirst(rw, |rw|)[b] == i;
  }

  lemma PrefixHolds(order: seq<nat>, n: nat, b: nat)
    requires n <= |order| && b < |order|
    ensures b < n ==> order[b] in order[..n]
  {
    if b < n {
      assert order[..n][b] == order[b];
    }
  }

  /** Selected experts are distinct, no unselected expert outweighs a selected one, and ties go to the lower index. */
  lemma TopK(rw: seq<real>, k: nat)
    ensures Distinct(Selected(rw, k))
    ensures forall i, j :: i in Selected(rw, k) && 0 <= j < |rw| && j !in Selected(rw, k) ==> Before(rw, i, j)
  {
    var order := RankFirst(rw, |rw|);
    var sel := Selected(rw, k);
    RankFirstSorted(rw, |rw|);
    forall i, j | i in sel && 0 <= j < |rw| && j !in sel
      ensures Before(rw, i, j)
    {
      var b := RankOf(rw, j);
      PrefixHolds(order, |sel|, b);
      var a :| 0 <= a < |sel| && sel[a] == i;
      assert order[a] == i;
    }
  }

  // ---------------------------------------------------------------- normalised weights

  function SumOver(rw: seq<real>, sel: seq<nat>): real
    requires Ranks(rw, sel)
  {
    if sel == [] then 0.0 else SumOver(rw, sel[..|sel| - 1]) + rw[sel[|sel| - 1]]
  }

  /** A row of softmax weights: none negative, and not all zero. */
  predicate SoftmaxRow(rw: seq<real>, experts: nat) {
    && |rw| == experts
    && (forall i :: 0 <= i < |rw| ==> rw[i] >= 0.0)
    && exists i :: 0 <= i < |rw| && rw[i] > 0.0
  }

  /** The weights of a row's selected experts have a positive sum, so they can be normalised. */
  lemma SelectedSumPositive(rw: seq<real>, k: nat)
    requires SoftmaxRow(rw, |rw|) && k > 0
    ensures SumOver(rw, Selected(rw, k)) > 0.0
  {
    var i :| 0 <= i < |rw| && rw[i] > 0.0;
    var b := RankOf(rw, i);
    assert b == 0 || Before(rw, RankFirst(rw, |rw|)[0], i);
    SumAtLeastFirst(rw, Selected(rw, k));
  }

  lemma {:induction false} SumAtLeastFirst(rw: seq<real>, sel: seq<nat>)
    requires Ranks(rw, sel) && sel != [] && forall i :: 0 <= i < |rw| ==> rw[i] >= 0.0
    ensures SumOver(rw, sel) >= rw[sel[0]]
  {
    if |sel| > 1 {
      SumAtLeastFirst(rw, sel[..|sel| - 1]);
    } else {
      assert sel[..0] == [];
    }
  }

  function Share(rw: seq<real>, sel: seq<nat>, e: nat): real
    requires Ranks(rw, sel) && e < |rw|
  {
    var total := SumOver(rw, sel);
    if total == 0.0 then 0.0 else rw[e] / total
  }

  function SumShares(rw: seq<real>, sel: seq<nat>, total: real): real
    requires Ranks(rw, sel) && total != 0.0
  {
    if sel == [] then 0.0 else SumShares(rw, sel[..|sel| - 1], total) + rw[sel[|sel| - 1]] / total
  }

  lemma {:induction false} SharesScale(rw: seq<real>, sel: seq<nat>, total: real)
    requires Ranks(rw, sel) && total != 0.0
    ensures SumShares(rw, sel, total) == SumOver(rw, sel) / total
  {
    if sel != [] {
      var last := |sel| - 1;
      SharesScale(rw, sel[..last], total);
      AddQuotients(SumOver(rw, sel[..last]), rw[sel[last]], total);
    }
  }

  lemma AddQuotients(x: real, y: real, total: real)
    requires total != 0.0
    ensures (x + y) / total == x / total + y / total
  {
  }

  /** The normalised weights of a row's selected experts sum to one. */
  lemma SharesSumToOne(rw: seq<real>, k: nat)
    requires SoftmaxRow(rw, |rw|) && k > 0
    ensures var sel := Selected(rw, k);
            var total := SumOver(rw, sel);
            && total > 0.0
            && SumShares(rw, sel, total) == 1.0
            && forall a :: 0 <= a < |sel| ==> Share(rw, sel, sel[a]) == rw[sel[a]] / total
  {
    SelectedSumPositive(rw, k);
    SharesScale(rw, Selected(rw, k), SumOver(rw, Selected(rw, k)));
    SelfQuotient(SumOver(rw, Selected(rw, k)));
  }

  lemma SelfQuotient(x: real)
    requires x != 0.0
    ensures x / x == 1.0
  {
  }

  // ---------------------------------------------------------------- row lists per expert

  predicate RoutingRows(rws: seq<seq<real>>, experts: nat) {
    forall r :: 0 <= r < |rws| ==> SoftmaxRow(rws[r], experts)
  }

  /** The rows among the first `n` that select expert `e`, in order. */
  function RowsFor(rws: seq<seq<real>>, k: nat, e: nat, n: nat): (rows: seq<nat>)
    requires n <= |rws|
    ensures forall j :: 0 <= j < |rows| ==> rows[j] < n
  {
    if n == 0 then [] else
      RowsFor(rws, k, e, n - 1) + (if e in Selected(rws[n - 1], k) then [n - 1] else [])
  }

  /** Expert `e`'s normalised weights in the rows that select it, in the same order. */
  function WeightsFor(rws: seq<seq<real>>, k: nat, e: nat, n: nat): (ws: seq<real>)
    requires n <= |rws|
    ensures |ws| == |RowsFor(rws, k, e, n)|
  {
    if n == 0 then [] else
      var sel := Selected(rws[n - 1], k);
      WeightsFor(rws, k, e, n - 1) + (if e in sel then [Share(rws[n - 1], sel, e)] else [])
  }

  predicate Increasing(rows: seq<nat>) {
    forall i, j :: 0 <= i < j < |rows| ==> rows[i] < rows[j]
  }

  /** An expert's row list is strictly increasing. */
  lemma {:induction false} RowsIncreasing(rws: seq<seq<real>>, k: nat, e: nat, n: nat)
    requires n <= |rws|
    ensures Increasing(RowsFor(rws, k, e, n))
  {
    if n > 0 {
      RowsIncreasing(rws, k, e, n - 1);
    }
  }

  /** An expert's row list holds exactly the rows that select it. */
  lemma {:induction false} RowsExact(rws: seq<seq<real>>, k: nat, e: nat, n: nat, r: nat)
    requires r < n <= |rws|
    ensures r in RowsFor(rws, k, e, n) <==> e in Selected(rws[r], k)
  {
    var before := RowsFor(rws, k, e, n - 1);
    assert n - 1 !in before;
    assert RowsFor(rws, k, e, n) == before + if e in Selected(rws[n - 1], k) then [n - 1] else [];
    if r < n - 1 {
      RowsExact(rws, k, e, n - 1, r);
    }
  }

  /** An expert's weight list is aligned with its row list. */
  lemma {:induction false} WeightsAligned(rws: seq<seq<real>>, k: nat, e: nat, n: nat, j: nat)
    requires n <= |rws| && j < |RowsFor(rws, k, e, n)|
    ensures var r := RowsFor(rws, k, e, n)[j];
            && e in Selected(rws[r], k)
            && WeightsFor(rws, k, e, n)[j] == Share(rws[r], Selected(rws[r], k), e)
  {
    if j < |RowsFor(rws, k, e, n - 1)| {
      WeightsAligned(rws, k, e, n - 1, j);
    }
  }

  function TotalEntries(rws: seq<seq<real>>, k: nat, experts: nat, n: nat): nat
    requires n <= |rws|
  {
    if experts == 0 then 0 else TotalEntries(rws, k, experts - 1, n) + |RowsFor(rws, k, experts - 1, n)|
  }

  function CountIn(sel: seq<nat>, experts: nat): nat {
    if experts == 0 then 0 else CountIn(sel, experts - 1) + (if experts - 1 in sel then 1 else 0)
  }

  lemma {:induction false} EntriesOfOneRow(rws: seq<seq<real>>, k: nat, experts: nat, n: nat)
    requires 0 < n <= |rws|
    ensures TotalEntries(rws, k, experts, n)
         == TotalEntries(rws, k, experts, n - 1) + CountIn(Selected(rws[n - 1], k), experts)
  {
    if experts > 0 {
      EntriesOfOneRow(rws, k, experts - 1, n);
    }
  }

  function Below(sel: seq<nat>, n: nat): set<nat> {
    set i | i in sel && i < n
  }

  lemma {:induction false} CountIsCardinality(sel: seq<nat>, n: nat)
    ensures CountIn(sel, n) == |Below(sel, n)|
  {
    if n > 0 {
      CountIsCardinality(sel, n - 1);
      if n - 1 in sel {
        assert Below(sel, n) == Below(sel, n - 1) + {n - 1};
      } else {
        assert Below(sel, n) == Below(sel, n - 1);
      }
    } else {
      assert Below(sel, 0) == {};
    }
  }

  function Elements(sel: seq<nat>): set<nat> {
    set i | i in sel
  }

  lemma {:induction false} DistinctCardinality(sel: seq<nat>)
    requires Distinct(sel)
    ensures |Elements(sel)| == |sel|
  {
    if sel != [] {
      var last := |sel| - 1;
      DistinctCardinality(sel[..last]);
      assert sel[last] !in Elements(sel[..last]);
      assert Elements(sel) == Elements(sel[..last]) + {sel[last]};
    }
  }

  /** Together the experts' lists hold each row exactly min(k, experts) times. */
  lemma {:induction false} EntriesTotal(rws: seq<seq<real>>, k: nat, experts: nat, n: nat)
    requires RoutingRows(rws, experts) && n <= |rws|
    ensures TotalEntries(rws, k, experts, n) == n * Min(k, experts)
  {
    if n == 0 {
      NoRowsNoEntries(rws, k, experts);
    } else {
      EntriesTotal(rws, k, experts, n - 1);
      EntriesOfOneRow(rws, k, experts, n);
      var sel := Selected(rws[n - 1], k);
      TopK(rws[n - 1], k);
      CountIsCardinality(sel, experts);
      DistinctCardinality(sel);
      assert Below(sel, experts) == Elements(sel);
      assert n * Min(k, experts) == (n - 1) * Min(k, experts) + Min(k, experts);
    }
  }

  lemma {:induction experts} NoRowsNoEntries(rws: seq<seq<real>>, k: nat, experts: nat)
    ensures TotalEntries(rws, k, experts, 0) == 0
  {
  }

  // ---------------------------------------------------------------- routing, as the code does it

  method FindSlot(rw: seq<real>, dst: seq<nat>, i: nat) returns (p: nat)
    requires Ranks(rw, dst) && i < |rw|
    ensures p == Slot(rw, dst, i)
  {
    p := 0;
    while p < |dst| && rw[dst[p]] >= rw[i]
      invariant p <= |dst|
      invariant p + Slot(rw, dst[p..], i) == Slot(rw, dst, i)
    {
      assert dst[p..][1..] == dst[p + 1..];
      p := p + 1;
    }
  }

  /** Ranks the experts of a row by a stable insertion sort, descending. */
  method RankExperts(rw: seq<real>) returns (dst: seq<nat>)
    ensures dst == RankFirst(rw, |rw|)
  {
    dst := [];
    for i := 0 to |rw|
      invariant dst == RankFirst(rw, i)
    {
      var p := FindSlot(rw, dst, i);
      dst := InsertAt(dst, p, i);
    }
  }

  /** Builds every expert's list of rows and of normalised weights, in two passes over each row's selection. */
  method Route(rws: seq<seq<real>>, experts: nat, k: nat) returns (topX: seq<seq<nat>>, selectedRws: seq<seq<real>>)
    requires RoutingRows(rws, experts)
    ensures |topX| == |selectedRws| == experts
    ensures forall e :: 0 <= e < experts ==> topX[e] == RowsFor(rws, k, e, |rws|)
    ensures forall e :: 0 <= e < experts ==> selectedRws[e] == WeightsFor(rws, k, e, |rws|)
  {
    topX, selectedRws := seq(experts, _ => []), seq(experts, _ => []);
    for row := 0 to |rws|
      invariant |topX| == |selectedRws| == experts
      invariant forall e :: 0 <= e < experts ==> topX[e] == RowsFor(rws, k, e, row)
      invariant forall e :: 0 <= e < experts ==> selectedRws[e] == WeightsFor(rws, k, e, row)
    {
      var rw := rws[row];
      var dst := RankExperts(rw);
      var sel := dst[..Min(k, |dst|)];
      TopK(rw, k);
      if k > 0 { SelectedSumPositive(rw, k); }
      var sum;
      topX, sum := PushRow(topX, rw, sel, row);
      selectedRws := PushWeights(selectedRws, rw, sel, sum);
    }
  }

  /** First pass over a row's selection: sums the weights and lists the row with each selected expert. */
  method PushRow(lists: seq<seq<nat>>, rw: seq<real>, sel: seq<nat>, row: nat)
    returns (lists': seq<seq<nat>>, sum: real)
    requires |lists| == |rw| && Ranks(rw, sel) && Distinct(sel)
    ensures sum == SumOver(rw, sel)
    ensures |lists'| == |lists|
    ensures forall e :: 0 <= e < |lists| ==> lists'[e] == lists[e] + if e in sel then [row] else []
  {
    lists', sum := lists, 0.0;
    for a := 0 to |sel|
      invariant |lists'| == |lists| && sum == SumOver(rw, sel[..a])
      invariant forall e :: 0 <= e < |lists| ==> lists'[e] == lists[e] + if e in sel[..a] then [row] else []
    {
      assert sel[..a + 1][..a] == sel[..a] && sel[a] !in sel[..a];
      sum := sum + rw[sel[a]];
      lists' := lists'[sel[a] := lists'[sel[a]] + [row]];
    }
    assert sel[..|sel|] == sel;
  }

  /** Second pass: lists each selected expert's weight divided by the sum. */
  method PushWeights(lists: seq<seq<real>>, rw: seq<real>, sel: seq<nat>, sum: real) returns (lists': seq<seq<real>>)
    requires |lists| == |rw| && Ranks(rw, sel) && Distinct(sel)
    requires sum == SumOver(rw, sel) && (sel != [] ==> sum > 0.0)
    ensures |lists'| == |lists|
    ensures forall e :: 0 <= e < |lists| ==> lists'[e] == lists[e] + if e in sel then [Share(rw, sel, e)] else []
  {
    lists' := lists;
    for a := 0 to |sel|
      invariant |lists'| == |lists|
      invariant forall e :: 0 <= e < |lists| ==>
                  lists'[e] == lists[e] + if e in sel[..a] then [Share(rw, sel, e)] else []
    {
      assert sel[a] !in sel[..a];
      lists' := lists'[sel[a] := lists'[sel[a]] + [rw[sel[a]] / sum]];
    }
    assert sel[..|sel|] == sel;
  }

  // ---------------------------------------------------------------- the simple form

  function Scale(w: real, x: Vec): (y: Vec)
    ensures |y| == |x|
  {
    seq(|x|, c requires 0 <= c < |x| => w * x[c])
  }

  function Plus(x: Vec, y: Vec): (z: Vec)
    requires |x| == |y|
    ensures |z| == |x|
  {
    seq(|x|, c requires 0 <= c < |x| => x[c] + y[c])
  }

  function Zeros(width: nat): (z: Vec)
    ensures |z| == width
  {
    seq(width, _ => 0.0)
  }

  /** An expert is a function on rows that keeps their width. */
  ghost predicate KeepsWidth(expert: (nat, Vec) -> Vec, width: nat) {
    forall e: nat, x: Vec :: |x| == width ==> |expert(e, x)| == width
  }

  /**
   What a row should become: the sum, over its selected experts from the heaviest down, of the normalised
   weight times the expert's output on the row.
   */
  function WeightedSum(expert: (nat, Vec) -> Vec, rw: seq<real>, sel: seq<nat>, some: seq<nat>, x: Vec): (y: Vec)
    requires Ranks(rw, sel) && Ranks(rw, some)
    requires forall e: nat :: |expert(e, x)| == |x|
    ensures |y| == |x|
  {
    if some == [] then Zeros(|x|) else
      var e := some[|some| - 1];
      Plus(WeightedSum(expert, rw, sel, some[..|some| - 1], x), Scale(Share(rw, sel, e), expert(e, x)))
  }

  /** The same sum in the order of expert indices, as the dispatch loop accumulates it. */
  function IndexSum(expert: (nat, Vec) -> Vec, rw: seq<real>, sel: seq<nat>, some: seq<nat>, x: Vec, n: nat): (y: Vec)
    requires Ranks(rw, sel) && n <= |rw|
    requires forall e: nat :: |expert(e, x)| == |x|
    ensures |y| == |x|
  {
    if n == 0 then Zeros(|x|) else
      var before := IndexSum(expert, rw, sel, some, x, n - 1);
      if n - 1 in some then Plus(before, Scale(Share(rw, sel, n - 1), expert(n - 1, x))) else before
  }

  lemma {:induction false} IndexSumExtend(
    expert: (nat, Vec) -> Vec, rw: seq<real>, sel: seq<nat>, some: seq<nat>, e: nat, x: Vec, n: nat)
    requires Ranks(rw, sel) && n <= |rw| && e < |rw| && e !in some
    requires forall e: nat :: |expert(e, x)| == |x|
    ensures IndexSum(expert, rw, sel, some + [e], x, n)
         == if e < n then Plus(IndexSum(expert, rw, sel, some, x, n), Scale(Share(rw, sel, e), expert(e, x)))
            else IndexSum(expert, rw, sel, some, x, n)
  {
    if n > 0 {
      IndexSumExtend(expert, rw, sel, some, e, x, n - 1);
      assert n - 1 in some + [e] <==> n - 1 in some || n - 1 == e;
    }
  }

  /** Summing by expert index and summing by rank give the same vector. */
  lemma {:induction false} SumsAgree(
    expert: (nat, Vec) -> Vec, rw: seq<real>, sel: seq<nat>, some: seq<nat>, x: Vec)
    requires Ranks(rw, sel) && Ranks(rw, some) && Distinct(some)
    requires forall e: nat :: |expert(e, x)| == |x|
    ensures IndexSum(expert, rw, sel, some, x, |rw|) == WeightedSum(expert, rw, sel, some, x)
  {
    if some == [] {
      EmptyIndexSum(expert, rw, sel, x, |rw|);
    } else {
      var (front, e) := (some[..|some| - 1], some[|some| - 1]);
      SumsAgree(expert, rw, sel, front, x);
      IndexSumExtend(expert, rw, sel, front, e, x, |rw|);
      assert front + [e] == some;
    }
  }

  lemma EmptyIndexSum(expert: (nat, Vec) -> Vec, rw: seq<real>, sel: seq<nat>, x: Vec, n: nat)
    requires Ranks(rw, sel) && n <= |rw|
    requires forall e: nat :: |expert(e, x)| == |x|
    ensures IndexSum(expert, rw, sel, [], x, n) == Zeros(|x|)
  {
  }

  // ---------------------------------------------------------------- dispatch

  predicate Rectangular(xs: seq<Vec>, width: nat) {
    forall r :: 0 <= r < |xs| ==> |xs[r]| == width
  }

  /** Gathers an expert's rows into a batch and runs the expert on it, scaled by the rows' weights. */
  method RunExpert(expert: (nat, Vec) -> Vec, e: nat, xs: seq<Vec>, rows: seq<nat>, ws: seq<real>)
    returns (out: seq<Vec>)
    requires |rows| == |ws| && forall j :: 0 <= j < |rows| ==> rows[j] < |xs|
    ensures |out| == |rows|
    ensures forall j :: 0 <= j < |rows| ==> out[j] == Scale(ws[j], expert(e, xs[rows[j]]))
  {
    var batch := seq(|rows|, j requires 0 <= j < |rows| => xs[rows[j]]);
    out := [];
    for j := 0 to |rows|
      invariant |out| == j
      invariant forall i :: 0 <= i < j ==> out[i] == Scale(ws[i], expert(e, xs[rows[i]]))
    {
      out := out + [Scale(ws[j], expert(e, batch[j]))];
    }
  }

  /** Adds the given rows of results into `ys` at the listed positions, one after another. */
  method IndexAdd(ys: seq<Vec>, rows: seq<nat>, out: seq<Vec>, ghost width: nat) returns (ys': seq<Vec>)
    requires |rows| == |out| && Rectangular(ys, width) && Rectangular(out, width)
    requires forall j :: 0 <= j < |rows| ==> rows[j] < |ys|
    requires Increasing(rows)
    ensures |ys'| == |ys| && Rectangular(ys', width)
    ensures forall j :: 0 <= j < |rows| ==> ys'[rows[j]] == Plus(ys[rows[j]], out[j])
    ensures forall r :: 0 <= r < |ys| && r !in rows ==> ys'[r] == ys[r]
  {
    ys' := ys;
    for j := 0 to |rows|
      invariant |ys'| == |ys| && Rectangular(ys', width)
      invariant forall i :: 0 <= i < j ==> ys'[rows[i]] == Plus(ys[rows[i]], out[i])
      invariant forall r :: 0 <= r < |ys| && r !in rows[..j] ==> ys'[r] == ys[r]
    {
      assert rows[j] !in rows[..j];
      ys' := ys'[rows[j] := Plus(ys'[rows[j]], out[j])];
    }
  }

  /** The row that a row of the input should become: a function of that row alone. */
  function MoeRow(gate: Vec -> seq<real>, expert: (nat, Vec) -> Vec, k: nat, x: Vec): (y: Vec)
    requires forall e: nat :: |expert(e, x)| == |x|
    ensures |y| == |x|
  {
    var sel := Selected(gate(x), k);
    WeightedSum(expert, gate(x), sel, sel, x)
  }

  // ---------------------------------------------------------------- what the weighted sum is

  /** One coordinate of the experts' outputs, each times its routing weight, added up. */
  function ScalarSum(expert: (nat, Vec) -> Vec, rw: seq<real>, some: seq<nat>, x: Vec, c: nat): real
    requires Ranks(rw, some) && c < |x| && forall e: nat :: |expert(e, x)| == |x|
  {
    if some == [] then 0.0 else
      var e := some[|some| - 1];
      ScalarSum(expert, rw, some[..|some| - 1], x, c) + rw[e] * expert(e, x)[c]
  }

  lemma WeightedSumLast(expert: (nat, Vec) -> Vec, rw: seq<real>, sel: seq<nat>, some: seq<nat>, x: Vec)
    requires Ranks(rw, sel) && Ranks(rw, some) && some != [] && forall e: nat :: |expert(e, x)| == |x|
    ensures var (front, e) := (some[..|some| - 1], some[|some| - 1]);
            WeightedSum(expert, rw, sel, some, x)
            == Plus(WeightedSum(expert, rw, sel, front, x), Scale(Share(rw, sel, e), expert(e, x)))
  {
  }

  /** A vector that is the other plus a share of a third, at one coordinate and scaled by the total. */
  lemma TermAt(after: Vec, before: Vec, share: real, y: Vec, w: real, total: real, scalar: real, c: nat)
    requires |before| == |y| && c < |y| && after == Plus(before, Scale(share, y))
    requires total != 0.0 && share == w / total && before[c] * total == scalar
    ensures after[c] * total == scalar + w * y[c]
  {
    assert after[c] == before[c] + share * y[c];
    ScaledTerm(after[c], before[c], share, w, total, y[c]);
  }

  lemma {:induction false} WeightedSumScales(
    expert: (nat, Vec) -> Vec, rw: seq<real>, sel: seq<nat>, some: seq<nat>, x: Vec, c: nat)
    requires Ranks(rw, sel) && Ranks(rw, some) && c < |x| && forall e: nat :: |expert(e, x)| == |x|
    requires SumOver(rw, sel) != 0.0
    ensures WeightedSum(expert, rw, sel, some, x)[c] * SumOver(rw, sel) == ScalarSum(expert, rw, some, x, c)
  {
    if some != [] {
      var (front, e) := (some[..|some| - 1], some[|some| - 1]);
      WeightedSumScales(expert, rw, sel, front, x, c);
      WeightedSumLast(expert, rw, sel, some, x);
      TermAt(WeightedSum(expert, rw, sel, some, x), WeightedSum(expert, rw, sel, front, x), Share(rw, sel, e),
             expert(e, x), rw[e], SumOver(rw, sel), ScalarSum(expert, rw, front, x, c), c);
    }
  }

  lemma ScaledTerm(after: real, before: real, share: real, w: real, total: real, y: real)
    requires total != 0.0 && share == w / total && after == before + share * y
    ensures after * total == before * total + w * y
  {
    assert share * total == w;
    assert (share * y) * total == (share * total) * y;
  }

  lemma ScalarSumLast(expert: (nat, Vec) -> Vec, rw: seq<real>, some: seq<nat>, x: Vec, c: nat)
    requires Ranks(rw, some) && some != [] && c < |x| && forall e: nat :: |expert(e, x)| == |x|
    ensures var (front, e) := (some[..|some| - 1], some[|some| - 1]);
            && ScalarSum(expert, rw, some, x, c) == ScalarSum(expert, rw, front, x, c) + rw[e] * expert(e, x)[c]
            && SumOver(rw, some) == SumOver(rw, front) + rw[e]
  {
  }

  lemma {:induction false} ScalarSumBounds(
    expert: (nat, Vec) -> Vec, rw: seq<real>, some: seq<nat>, x: Vec, c: nat, lo: real, hi: real)
    requires Ranks(rw, some) && c < |x| && forall e: nat :: |expert(e, x)| == |x|
    requires forall i :: 0 <= i < |rw| ==> rw[i] >= 0.0
    requires forall a :: 0 <= a < |some| ==> lo <= expert(some[a], x)[c] <= hi
    ensures lo * SumOver(rw, some) <= ScalarSum(expert, rw, some, x, c) <= hi * SumOver(rw, some)
  {
    if some != [] {
      var (front, e) := (some[..|some| - 1], some[|some| - 1]);
      ScalarSumBounds(expert, rw, front, x, c, lo, hi);
      ScalarSumLast(expert, rw, some, x, c);
      TermBounds(rw[e], expert(e, x)[c], SumOver(rw, front), ScalarSum(expert, rw, front, x, c), lo, hi);
    }
  }

  lemma TermBounds(w: real, y: real, sum: real, scalar: real, lo: real, hi: real)
    requires w >= 0.0 && lo <= y <= hi && lo * sum <= scalar <= hi * sum
    ensures lo * (sum + w) <= scalar + w * y <= hi * (sum + w)
  {
    assert w * (y - lo) >= 0.0 && w * (hi - y) >= 0.0;
    assert lo * (sum + w) == lo * sum + lo * w && hi * (sum + w) == hi * sum + hi * w;
  }

  /** Each coordinate, times the sum of the selected weights, is the sum of the experts' outputs times their weights. */
  predicate IsWeighted(expert: (nat, Vec) -> Vec, rw: seq<real>, sel: seq<nat>, x: Vec, y: Vec)
    requires Ranks(rw, sel) && forall e: nat :: |expert(e, x)| == |x|
  {
    && |y| == |x| && SumOver(rw, sel) > 0.0
    && forall c :: 0 <= c < |x| ==> y[c] * SumOver(rw, sel) == ScalarSum(expert, rw, sel, x, c)
  }

  /** Each coordinate lies between any bounds of the selected experts' outputs at that coordinate. */
  ghost predicate WithinExperts(expert: (nat, Vec) -> Vec, sel: seq<nat>, x: Vec, y: Vec)
    requires |y| == |x| && forall e: nat :: |expert(e, x)| == |x|
  {
    forall c: nat, lo: real, hi: real :: c < |x| && Bounded(expert, sel, x, c, lo, hi) ==> lo <= y[c] <= hi
  }

  predicate Bounded(expert: (nat, Vec) -> Vec, sel: seq<nat>, x: Vec, c: nat, lo: real, hi: real)
    requires c < |x| && forall e: nat :: |expert(e, x)| == |x|
  {
    forall a :: 0 <= a < |sel| ==> lo <= expert(sel[a], x)[c] <= hi
  }

  lemma AverageIsWeighted(expert: (nat, Vec) -> Vec, rw: seq<real>, sel: seq<nat>, x: Vec)
    requires Ranks(rw, sel) && SumOver(rw, sel) > 0.0 && forall e: nat :: |expert(e, x)| == |x|
    ensures IsWeighted(expert, rw, sel, x, WeightedSum(expert, rw, sel, sel, x))
  {
    forall c: nat | c < |x|
      ensures WeightedSum(expert, rw, sel, sel, x)[c] * SumOver(rw, sel) == ScalarSum(expert, rw, sel, x, c)
    {
      WeightedSumScales(expert, rw, sel, sel, x, c);
    }
  }

  lemma WeightedIsWithin(expert: (nat, Vec) -> Vec, rw: seq<real>, sel: seq<nat>, x: Vec, y: Vec)
    requires Ranks(rw, sel) && forall e: nat :: |expert(e, x)| == |x|
    requires IsWeighted(expert, rw, sel, x, y) && forall i :: 0 <= i < |rw| ==> rw[i] >= 0.0
    ensures WithinExperts(expert, sel, x, y)
  {
    forall c: nat, lo: real, hi: real | c < |x| && Bounded(expert, sel, x, c, lo, hi)
      ensures lo <= y[c] <= hi
    {
      ScalarSumBounds(expert, rw, sel, x, c, lo, hi);
      BetweenByFactor(lo, y[c], hi, SumOver(rw, sel), ScalarSum(expert, rw, sel, x, c));
    }
  }

  /**
   An output row is the average of its selected experts' outputs, weighted by the routing weights; so each of its
   coordinates lies between the least and the greatest of theirs.
   */
  lemma MoeRowIsAverage(gate: Vec -> seq<real>, expert: (nat, Vec) -> Vec, k: nat, x: Vec)
    requires SoftmaxRow(gate(x), |gate(x)|) && k > 0 && forall e: nat :: |expert(e, x)| == |x|
    ensures IsWeighted(expert, gate(x), Selected(gate(x), k), x, MoeRow(gate, expert, k, x))
    ensures WithinExperts(expert, Selected(gate(x), k), x, MoeRow(gate, expert, k, x))
  {
    SelectedSumPositive(gate(x), k);
    AverageIsWeighted(expert, gate(x), Selected(gate(x), k), x);
    WeightedIsWithin(expert, gate(x), Selected(gate(x), k), x, MoeRow(gate, expert, k, x));
  }

  lemma BetweenByFactor(lo: real, y: real, hi: real, total: real, scaled: real)
    requires total > 0.0 && y * total == scaled && lo * total <= scaled <= hi * total
    ensures lo <= y <= hi
  {
    assert (y - lo) * total >= 0.0 && (hi - y) * total >= 0.0;
  }

  /** The accumulator after the experts below `e`. */
  ghost predicate Accumulated(
    expert: (nat, Vec) -> Vec, rws: seq<seq<real>>, k: nat, xs: seq<Vec>, width: nat, ys: seq<Vec>, e: nat)
  {
    && |ys| == |xs| == |rws|
    && Rectangular(xs, width) && Rectangular(ys, width) && KeepsWidth(expert, width)
    && forall r :: 0 <= r < |xs| ==>
         && e <= |rws[r]|
         && ys[r] == IndexSum(expert, rws[r], Selected(rws[r], k), Selected(rws[r], k), xs[r], e)
  }

  /** Runs expert `e` on the rows that select it, if any, and adds its share to each of them. */
  method AddExpert(
    expert: (nat, Vec) -> Vec, ghost k: nat, e: nat, xs: seq<Vec>, ghost rws: seq<seq<real>>,
    topX: seq<nat>, weights: seq<real>, ghost width: nat, ys: seq<Vec>)
    returns (ys': seq<Vec>)
    requires Accumulated(expert, rws, k, xs, width, ys, e)
    requires forall r :: 0 <= r < |rws| ==> e < |rws[r]|
    requires topX == RowsFor(rws, k, e, |rws|) && weights == WeightsFor(rws, k, e, |rws|)
    ensures Accumulated(expert, rws, k, xs, width, ys', e + 1)
  {
    ys' := ys;
    if topX != [] {
      RowsIncreasing(rws, k, e, |rws|);
      var out := RunExpert(expert, e, xs, topX, weights);
      ys' := IndexAdd(ys, topX, out, width);
    }
    forall r | 0 <= r < |xs|
      ensures var sel := Selected(rws[r], k);
              ys'[r] == if e in sel then Plus(ys[r], Scale(Share(rws[r], sel, e), expert(e, xs[r]))) else ys[r]
    {
      RowsExact(rws, k, e, |rws|, r);
      if r in topX {
        var j :| 0 <= j < |topX| && topX[j] == r;
        WeightsAligned(rws, k, e, |rws|, j);
      }
    }
  }

  lemma AccumulatedAll(
    gate: Vec -> seq<real>, expert: (nat, Vec) -> Vec, rws: seq<seq<real>>, k: nat, xs: seq<Vec>, width: nat,
    ys: seq<Vec>, e: nat)
    requires Accumulated(expert, rws, k, xs, width, ys, e)
    requires forall r :: 0 <= r < |rws| ==> rws[r] == gate(xs[r]) && |rws[r]| == e
    ensures forall r :: 0 <= r < |xs| ==> ys[r] == MoeRow(gate, expert, k, xs[r])
  {
    forall r | 0 <= r < |xs|
      ensures ys[r] == MoeRow(gate, expert, k, xs[r])
    {
      var sel := Selected(rws[r], k);
      TopK(rws[r], k);
      SumsAgree(expert, rws[r], sel, sel, xs[r]);
    }
  }

  lemma AccumulatedNone(expert: (nat, Vec) -> Vec, rws: seq<seq<real>>, k: nat, xs: seq<Vec>, width: nat)
    requires Rectangular(xs, width) && KeepsWidth(expert, width) && |rws| == |xs|
    ensures Accumulated(expert, rws, k, xs, width, seq(|xs|, _ => Zeros(width)), 0)
  {
  }

  /**
   The whole block: every row becomes the weighted sum of its selected experts' outputs on that row alone,
   whatever the number of rows, experts and selected experts.
   */
  method Forward(gate: Vec -> seq<real>, expert: (nat, Vec) -> Vec, experts: nat, k: nat, xs: seq<Vec>, width: nat)
    returns (ys: seq<Vec>)
    requires Rectangular(xs, width) && KeepsWidth(expert, width)
    requires forall r :: 0 <= r < |xs| ==> SoftmaxRow(gate(xs[r]), experts)
    ensures |ys| == |xs|
    ensures forall r :: 0 <= r < |xs| ==> ys[r] == MoeRow(gate, expert, k, xs[r])
  {
    var rws := seq(|xs|, r requires 0 <= r < |xs| => gate(xs[r]));
    var topX, selectedRws := Route(rws, experts, k);
    ys := seq(|xs|, _ => Zeros(width));
    AccumulatedNone(expert, rws, k, xs, width);
    for e := 0 to experts
      invariant Accumulated(expert, rws, k, xs, width, ys, e)
    {
      ys := AddExpert(expert, k, e, xs, rws, topX[e], selectedRws[e], width, ys);
    }
    AccumulatedAll(gate, expert, rws, k, xs, width, ys, experts);
  }
}
