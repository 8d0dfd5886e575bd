/**
 Partition planning: a global sample budget becomes rank budgets, then worker budgets, then spans of
 row positions, and finally the metadata rows each consumer reads.
 */
module Partition {
  import opened Arithmetic
  import opened Common

  datatype Span = Span(offset: nat, length: nat)

  // ---------------------------------------------------------------- contiguous splits

  /** First position of part `id`; `id == parts` gives the end of the last part. */
  function SplitOffset(count: nat, parts: nat, id: nat): (r: nat)
    requires 0 < parts
  {
    id * (count / parts) + Min(id, count % parts)
  }

  function SplitLength(count: nat, parts: nat, id: nat): (r: nat)
    requires 0 < parts
  {
    count / parts + if id < count % parts then 1 else 0
  }

  /** `partition_rows`: inputs outside u64 and parts outside the partition are refused. */
  function PartitionRows(count: nat, parts: nat, id: nat): (r: Result<Span>)
    ensures r.Ok? <==> count <= U64_MAX && parts <= U64_MAX && id < parts
  {
    if count > U64_MAX || parts > U64_MAX || id > U64_MAX || parts == 0 || id >= parts then Err(InvalidInput)
    else Ok(Span(SplitOffset(count, parts, id), SplitLength(count, parts, id)))
  }

  /** Neighbouring parts touch, and together they run from zero to `count`. */
  lemma SplitTouches(count: nat, parts: nat, id: nat)
    requires id < parts
    ensures SplitOffset(count, parts, 0) == 0
    ensures SplitOffset(count, parts, id) + SplitLength(count, parts, id) == SplitOffset(count, parts, id + 1)
    ensures SplitOffset(count, parts, parts) == count
  {
    var size := count / parts;
    assert (id + 1) * size == id * size + size;
    assert count == parts * size + count % parts;
  }

  /** Parts are as even as they can be, and the longer ones come first. */
  lemma SplitBalanced(count: nat, parts: nat, i: nat, j: nat)
    requires i < j < parts
    ensures SplitLength(count, parts, j) <= SplitLength(count, parts, i) <= SplitLength(count, parts, j) + 1
  {
  }

  lemma SplitNonempty(count: nat, parts: nat, id: nat)
    requires 0 < parts <= count
    ensures SplitLength(count, parts, id) >= 1
  {
    assert count == parts * (count / parts) + count % parts;
  }

  /** Spans that cover `[lo, hi)` in order, without a gap, an overlap or an empty member. */
  ghost predicate Tiles(spans: seq<Span>, lo: nat, hi: nat)
    decreases |spans|
  {
    if spans == [] then lo == hi
    else spans[0].offset == lo && spans[0].length > 0 && Tiles(spans[1..], lo + spans[0].length, hi)
  }

  lemma {:induction false} TilesAppend(a: seq<Span>, b: seq<Span>, lo: nat, mid: nat, hi: nat)
    requires Tiles(a, lo, mid) && Tiles(b, mid, hi)
    ensures Tiles(a + b, lo, hi)
    decreases |a|
  {
    if a == [] {
      assert a + b == b;
    } else {
      TilesAppend(a[1..], b, lo + a[0].length, mid, hi);
      assert (a + b)[1..] == a[1..] + b;
    }
  }

  // ---------------------------------------------------------------- budgets

  /** `rank_budget`: every rank gets the same count; `dropLast` trims to whole batches, otherwise pad. */
  function RankBudget(samples: nat, ranks: nat, batch: nat, dropLast: bool): (r: nat)
    requires ranks > 0 && batch > 0
    ensures dropLast ==> r % batch == 0
  {
    if dropLast then
      MulPositive(ranks, batch);
      var batches := samples / (ranks * batch);
      DivModUnique(batches * batch, batch, batches, 0);
      batches * batch
    else (samples + ranks - 1) / ranks
  }

  lemma MulPositive(a: int, b: int)
    requires a > 0 && b > 0
    ensures a * b > 0
  {
  }

  /** Padding adds less than one sample per rank; trimming drops less than one global batch. */
  lemma RankBudgetAdjusts(samples: nat, ranks: nat, batch: nat, dropLast: bool)
    requires ranks > 0 && batch > 0
    ensures var effective := RankBudget(samples, ranks, batch, dropLast) * ranks;
            if dropLast then effective <= samples < effective + ranks * batch
            else samples <= effective < samples + ranks
  {
    if dropLast {
      MulPositive(ranks, batch);
      var whole := ranks * batch;
      assert samples == (samples / whole) * whole + samples % whole;
      assert (samples / whole) * batch * ranks == (samples / whole) * whole;
    } else {
      var padded := samples + ranks - 1;
      assert padded == (padded / ranks) * ranks + padded % ranks;
    }
  }

  function Sum(s: seq<nat>): (r: nat) {
    if s == [] then 0 else Sum(s[..|s| - 1]) + s[|s| - 1]
  }

  /** Batches a worker emits for its budget: full ones, and with `partial` the tail as well. */
  function Batches(budget: nat, batch: nat, partial: bool): (r: nat)
    requires batch > 0
  {
    budget / batch + if partial && budget % batch > 0 then 1 else 0
  }

  ghost function SumBatches(s: seq<nat>, batch: nat, partial: bool): nat
    requires batch > 0
  {
    if s == [] then 0 else SumBatches(s[..|s| - 1], batch, partial) + Batches(s[|s| - 1], batch, partial)
  }

  /** Workers that receive any of the budget. */
  function ActiveWorkers(samples: nat, workers: nat, populations: nat, batch: nat): (r: nat)
    requires batch > 0
  {
    Min(workers, Min(populations, Max(1, samples / batch)))
  }

  /** Worker `i`'s share: whole batches, with the tail on the last active worker. */
  function Share(samples: nat, active: nat, batch: nat, i: nat): (r: nat)
    requires batch > 0
  {
    if i >= active then 0
    else SplitLength(samples / batch, active, i) * batch + if i + 1 == active then samples % batch else 0
  }

  /** `worker_budgets`: a positive budget needs a nonempty population. */
  function WorkerBudgets(samples: nat, workers: nat, populations: nat, batch: nat): (r: Result<seq<nat>>)
    requires workers > 0 && batch > 0
    ensures r.Ok? ==> |r.value| == workers
  {
    if samples == 0 then Ok(seq(workers, _ => 0))
    else if populations == 0 then Err(InvalidInput)
    else
      var active := ActiveWorkers(samples, workers, populations, batch);
      if samples / batch > U64_MAX || active > U64_MAX then Err(InvalidInput)
      else Ok(seq(workers, i requires 0 <= i < workers => Share(samples, active, batch, i)))
  }

  ghost predicate AreShares(samples: nat, active: nat, batch: nat, shares: seq<nat>)
    requires batch > 0
  {
    forall i :: 0 <= i < |shares| ==> shares[i] == Share(samples, active, batch, i)
  }

  /** Budget handed to the first `i` workers. */
  ghost function HandedOut(samples: nat, active: nat, batch: nat, i: nat): nat
    requires batch > 0 && 0 < active
  {
    if i < active then SplitOffset(samples / batch, active, i) * batch else samples
  }

  lemma HandedOutStep(samples: nat, active: nat, batch: nat, i: nat)
    requires batch > 0 && 0 < active
    ensures HandedOut(samples, active, batch, 0) == 0
    ensures HandedOut(samples, active, batch, i) + Share(samples, active, batch, i) ==
      HandedOut(samples, active, batch, i + 1)
  {
    var batches := samples / batch;
    SplitTouches(batches, active, if i < active then i else 0);
    if i < active {
      Distribute(SplitOffset(batches, active, i), SplitLength(batches, active, i), batch);
    }
  }

  lemma {:induction false} ShareSum(samples: nat, active: nat, batch: nat, shares: seq<nat>)
    requires batch > 0 && 0 < active && AreShares(samples, active, batch, shares)
    ensures Sum(shares) == HandedOut(samples, active, batch, |shares|)
    decreases |shares|
  {
    HandedOutStep(samples, active, batch, if shares == [] then 0 else |shares| - 1);
    if shares != [] {
      ShareSum(samples, active, batch, shares[..|shares| - 1]);
    }
  }

  lemma Distribute(a: int, b: int, c: int)
    ensures (a + b) * c == a * c + b * c
  {
  }

  lemma ShareBatchCount(samples: nat, active: nat, batch: nat, i: nat, partial: bool)
    requires batch > 0
    ensures Batches(Share(samples, active, batch, i), batch, partial) ==
            if i >= active then 0
            else SplitLength(samples / batch, active, i)
                 + if partial && i + 1 == active && samples % batch > 0 then 1 else 0
  {
    if i < active {
      var n := SplitLength(samples / batch, active, i);
      DivModUnique(Share(samples, active, batch, i), batch, n, if i + 1 == active then samples % batch else 0);
    } else {
      DivModUnique(0, batch, 0, 0);
    }
  }

  lemma {:induction false} ShareBatches(samples: nat, active: nat, batch: nat, partial: bool, shares: seq<nat>)
    requires batch > 0 && 0 < active && AreShares(samples, active, batch, shares)
    ensures SumBatches(shares, batch, partial) ==
            if |shares| < active then SplitOffset(samples / batch, active, |shares|)
            else Batches(samples, batch, partial)
    decreases |shares|
  {
    SplitTouches(samples / batch, active, 0);
    if shares != [] {
      var last := |shares| - 1;
      ShareBatches(samples, active, batch, partial, shares[..last]);
      ShareBatchCount(samples, active, batch, last, partial);
      if last < active {
        SplitTouches(samples / batch, active, last);
      }
    }
  }

  /** The shares add up to the budget, and the batch count of the whole rank is exact in both modes. */
  lemma BudgetsExact(samples: nat, workers: nat, populations: nat, batch: nat)
    requires workers > 0 && batch > 0 && WorkerBudgets(samples, workers, populations, batch).Ok?
    ensures var budgets := WorkerBudgets(samples, workers, populations, batch).value;
            && Sum(budgets) == samples
            && SumBatches(budgets, batch, true) == (samples + batch - 1) / batch
            && SumBatches(budgets, batch, false) == samples / batch
  {
    var budgets := WorkerBudgets(samples, workers, populations, batch).value;
    var active := if samples == 0 then 1 else ActiveWorkers(samples, workers, populations, batch);
    CeilingBatches(samples, batch);
    if samples == 0 {
      DivModUnique(0, batch, 0, 0);
      SplitEmpty();
    }
    ShareSum(samples, active, batch, budgets);
    ShareBatches(samples, active, batch, true, budgets);
    ShareBatches(samples, active, batch, false, budgets);
  }

  lemma SplitEmpty()
    ensures SplitLength(0, 1, 0) == 0
  {
  }

  lemma CeilingBatches(samples: nat, batch: nat)
    requires batch > 0
    ensures Batches(samples, batch, true) == (samples + batch - 1) / batch
  {
    var q, r := samples / batch, samples % batch;
    if r == 0 {
      DivModUnique(samples + batch - 1, batch, q, batch - 1);
    } else {
      assert (q + 1) * batch == q * batch + batch;
      DivModUnique(samples + batch - 1, batch, q + 1, r - 1);
    }
  }

  /** The active workers are exactly the first ones, and at most one of them has a partial batch. */
  lemma ActiveIsPrefix(samples: nat, workers: nat, populations: nat, batch: nat, i: nat)
    requires 0 < workers && 0 < populations && 0 < batch && 0 < samples && i < workers
    ensures var active := ActiveWorkers(samples, workers, populations, batch);
            && 0 < active <= populations && active <= workers
            && (Share(samples, active, batch, i) > 0 <==> i < active)
            && (Share(samples, active, batch, i) % batch != 0 ==> i + 1 == active)
  {
    var active := ActiveWorkers(samples, workers, populations, batch);
    var batches, tail := samples / batch, samples % batch;
    assert samples == batches * batch + tail;
    if i < active {
      var n := SplitLength(batches, active, i);
      DivModUnique(Share(samples, active, batch, i), batch, n, if i + 1 == active then tail else 0);
      if batches > 0 {
        SplitNonempty(batches, active, i);
        MulAtLeast(n, batch);
      }
    } else {
      DivModUnique(0, batch, 0, 0);
    }
  }

  /** At most one worker ends with a partial batch. */
  lemma OnePartialWorker(samples: nat, workers: nat, populations: nat, batch: nat, i: nat, j: nat)
    requires 0 < workers && 0 < batch && i < workers && j < workers
    requires WorkerBudgets(samples, workers, populations, batch).Ok?
    ensures var budgets := WorkerBudgets(samples, workers, populations, batch).value;
            budgets[i] % batch != 0 && budgets[j] % batch != 0 ==> i == j
  {
    if samples > 0 {
      ActiveIsPrefix(samples, workers, populations, batch, i);
      ActiveIsPrefix(samples, workers, populations, batch, j);
    } else {
      DivModUnique(0, batch, 0, 0);
    }
  }

  lemma SplitOnes(n: nat, i: nat)
    requires i < n
    ensures SplitLength(n, n, i) == 1
  {
    DivModUnique(n, n, 1, 0);
  }

  /** A worker that could have had a batch goes without one only if nobody has two. */
  lemma NoneIdleWhileOthersHoard(samples: nat, workers: nat, populations: nat, batch: nat, i: nat, j: nat)
    requires 0 < workers && 0 < batch && i < workers && j < workers && i < populations
    requires WorkerBudgets(samples, workers, populations, batch).Ok?
    ensures var budgets := WorkerBudgets(samples, workers, populations, batch).value;
            budgets[i] == 0 ==> budgets[j] < 2 * batch
  {
    if samples > 0 {
      var active, batches := ActiveWorkers(samples, workers, populations, batch), samples / batch;
      ActiveIsPrefix(samples, workers, populations, batch, i);
      if active <= i && j < active {
        assert active == Max(1, batches);
        if batches > 0 {
          SplitOnes(batches, j);
        } else {
          SplitEmpty();
        }
      }
    }
  }

  /** Whole batches per worker differ by at most one, earlier workers first, and populations are not exceeded. */
  lemma BatchesBalanced(samples: nat, workers: nat, populations: nat, batch: nat, i: nat, j: nat)
    requires 0 < workers && 0 < batch && i < j < workers
    requires WorkerBudgets(samples, workers, populations, batch).Ok?
    ensures var budgets := WorkerBudgets(samples, workers, populations, batch).value;
            && budgets[j] / batch <= budgets[i] / batch
            && (budgets[j] > 0 ==> budgets[i] > 0 && budgets[i] / batch <= budgets[j] / batch + 1)
            && (budgets[i] % batch != 0 ==> budgets[j] == 0)
            && (populations <= j ==> budgets[j] == 0)
  {
    if samples > 0 {
      var active := ActiveWorkers(samples, workers, populations, batch);
      ActiveIsPrefix(samples, workers, populations, batch, i);
      ActiveIsPrefix(samples, workers, populations, batch, j);
      ShareBatchCount(samples, active, batch, i, false);
      ShareBatchCount(samples, active, batch, j, false);
      if j < active {
        SplitBalanced(samples / batch, active, i, j);
      }
    } else {
      DivModUnique(0, batch, 0, 0);
    }
  }

  // ---------------------------------------------------------------- plans

  /** What every rank knows: metadata rows, ranks, batch size, global budget and partition mode. */
  datatype Request = Request(rows: nat, ranks: nat, batch: nat, samples: nat, split: bool, dropLast: bool) {

    ghost predicate Valid() { rows > 0 && 0 < ranks <= 0x1_0000_0000 && batch > 0 }

    function Local(): (r: nat)
      requires Valid()
    {
      RankBudget(samples, ranks, batch, dropLast)
    }

    /** Row positions shared out among the ranks, after padding or trimming. */
    function Population(): (r: nat)
      requires Valid()
    {
      if samples == rows then Local() * ranks
      else if rows < ranks then (rows + ranks - 1) / ranks * ranks
      else rows
    }

    function RankSpan(rank: nat): (r: Span)
      requires Valid() && rank < ranks
    {
      Span(SplitOffset(Population(), ranks, rank), SplitLength(Population(), ranks, rank))
    }
  }

  datatype Plan = Plan(rank: nat, worker: nat, offset: nat, populationSize: nat, sampleCount: nat)

  function ActiveSpans(plans: seq<Plan>): (r: seq<Span>) {
    if plans == [] then []
    else
      var last := plans[|plans| - 1];
      ActiveSpans(plans[..|plans| - 1])
      + if last.sampleCount > 0 then [Span(last.offset, last.populationSize)] else []
  }

  function Quotas(plans: seq<Plan>): (r: seq<nat>)
    ensures |r| == |plans|
    ensures forall i :: 0 <= i < |r| ==> r[i] == plans[i].sampleCount
  {
    seq(|plans|, i requires 0 <= i < |plans| => plans[i].sampleCount)
  }

  /** The plan of one rank, judged without reference to how it was computed. */
  ghost predicate PlansRank(q: Request, rank: nat, plans: seq<Plan>)
    requires q.Valid() && rank < q.ranks
  {
    && (forall i :: 0 <= i < |plans| ==>
          plans[i].rank == rank && plans[i].worker == i && (plans[i].sampleCount > 0 <==> plans[i].populationSize > 0))
    && Sum(Quotas(plans)) == q.Local()
    && SumBatches(Quotas(plans), q.batch, true) == (q.Local() + q.batch - 1) / q.batch
    && SumBatches(Quotas(plans), q.batch, false) == q.Local() / q.batch
    && (q.split && q.Local() > 0 ==>
          var span := q.RankSpan(rank);
          Tiles(ActiveSpans(plans), span.offset, span.offset + span.length))
    && (!q.split ==> forall i :: 0 <= i < |plans| && plans[i].sampleCount > 0 ==>
          plans[i].offset == 0 && plans[i].populationSize == q.rows)
  }

  /** A positive rank budget always finds a nonempty rank span. */
  lemma RankSpanNonempty(q: Request, rank: nat)
    requires q.Valid() && rank < q.ranks && q.Local() > 0
    ensures q.RankSpan(rank).length > 0
  {
    if q.samples == q.rows {
      DivModUnique(q.Population(), q.ranks, q.Local(), 0);
    } else {
      if q.rows < q.ranks {
        DivModUnique(q.rows + q.ranks - 1, q.ranks, 1, q.rows - 1);
      }
      SplitNonempty(q.Population(), q.ranks, rank);
    }
  }

  /** Population of worker `i`: its own budget in a full pass, an even share of the span otherwise. */
  function WorkerPopulation(q: Request, length: nat, active: nat, budget: nat, fullPass: bool, i: nat): (r: nat)
    requires q.Valid() && (budget > 0 ==> 0 < active)
  {
    if budget == 0 then 0
    else if !q.split then q.rows
    else if fullPass then budget
    else SplitLength(length, active, i)
  }

  /** Rows planned before worker `i` within the rank span. */
  ghost function Covered(q: Request, length: nat, active: nat, i: nat): nat
    requires q.Valid() && 0 < active
  {
    if q.Local() == length then HandedOut(length, active, q.batch, i)
    else SplitOffset(length, active, Min(i, active))
  }

  lemma CoveredStep(q: Request, length: nat, active: nat, i: nat)
    requires q.Valid() && 0 < active && 0 < q.Local()
    requires forall j {:trigger Share(q.Local(), active, q.batch, j)} :: 0 <= j ==>
      (Share(q.Local(), active, q.batch, j) > 0 <==> j < active)
    ensures Covered(q, length, active, 0) == 0
    ensures var budget := Share(q.Local(), active, q.batch, i);
            q.split ==> Covered(q, length, active, i + 1) ==
                        Covered(q, length, active, i) +
                        WorkerPopulation(q, length, active, budget, q.Local() == length, i)
    ensures i >= active ==> Covered(q, length, active, i) == length
  {
    HandedOutStep(q.Local(), active, q.batch, i);
    SplitTouches(length, active, if i < active then i else 0);
  }

  /** Identities, populations and, in replicate mode, whole-table spans of the plans made so far. */
  ghost predicate PlansWorkers(q: Request, rank: nat, plans: seq<Plan>) {
    && (forall i :: 0 <= i < |plans| ==> plans[i].rank == rank && plans[i].worker == i)
    && (forall i :: 0 <= i < |plans| ==> (plans[i].sampleCount > 0 <==> plans[i].populationSize > 0))
    && (!q.split ==> forall i :: 0 <= i < |plans| && plans[i].sampleCount > 0 ==>
          plans[i].offset == 0 && plans[i].populationSize == q.rows)
  }

  /** The active workers are the first `active` ones, each with its share of the rank budget. */
  ghost predicate SharesActive(q: Request, active: nat, budgets: seq<nat>)
    requires q.Valid()
  {
    && 0 < active <= |budgets|
    && AreShares(q.Local(), active, q.batch, budgets)
    && forall j {:trigger Share(q.Local(), active, q.batch, j)} :: 0 <= j ==>
      (Share(q.Local(), active, q.batch, j) > 0 <==> j < active)
  }

  /** Each plan's population is the one its worker is due. */
  ghost predicate Sized(q: Request, length: nat, active: nat, plans: seq<Plan>)
    requires q.Valid()
  {
    forall i :: 0 <= i < |plans| ==> SizedAt(q, length, active, plans[i], i)
  }

  ghost predicate SizedAt(q: Request, length: nat, active: nat, plan: Plan, i: nat)
    requires q.Valid()
  {
    && (plan.sampleCount > 0 ==> 0 < active && i < active)
    && plan.populationSize == WorkerPopulation(q, length, active, plan.sampleCount, q.Local() == length, i)
  }

  /**
   In split mode a full pass draws every position once: each population is its worker's budget. Otherwise
   the populations of the workers with a budget are as even as they can be.
   */
  ghost predicate PlansFair(q: Request, length: nat, plans: seq<Plan>)
    requires q.Valid()
  {
    && (q.Local() == length ==> forall i :: 0 <= i < |plans| ==> plans[i].populationSize == plans[i].sampleCount)
    && (q.Local() != length ==>
          forall i, j ::
            0 <= i < |plans| && 0 <= j < |plans| && plans[i].sampleCount > 0 && plans[j].sampleCount > 0 ==>
              plans[i].populationSize <= plans[j].populationSize + 1)
  }

  lemma SizedIsFair(q: Request, length: nat, active: nat, plans: seq<Plan>)
    requires q.Valid() && q.split && Sized(q, length, active, plans)
    ensures PlansFair(q, length, plans)
  {
    forall i, j | 0 <= i < |plans| && 0 <= j < |plans| && plans[i].sampleCount > 0 && plans[j].sampleCount > 0
      ensures q.Local() != length ==> plans[i].populationSize <= plans[j].populationSize + 1
    {
      assert SizedAt(q, length, active, plans[i], i) && SizedAt(q, length, active, plans[j], j);
    }
    forall i | 0 <= i < |plans|
      ensures q.Local() == length ==> plans[i].populationSize == plans[i].sampleCount
    {
      assert SizedAt(q, length, active, plans[i], i);
    }
  }

  /** What the plan loop has done so far. */
  ghost predicate Assigned(
    q: Request, rank: nat, span: Span, budgets: seq<nat>, active: nat, plans: seq<Plan>, offset: nat)
    requires q.Valid() && (q.Local() > 0 ==> 0 < active)
  {
    && |plans| <= |budgets| && Quotas(plans) == budgets[..|plans|]
    && PlansWorkers(q, rank, plans) && Sized(q, span.length, active, plans)
    && (q.split && q.Local() > 0 ==>
          && offset == span.offset + Covered(q, span.length, active, |plans|)
          && Tiles(ActiveSpans(plans), span.offset, offset))
  }

  /** What the plan loop relies on. */
  ghost predicate Assignable(q: Request, span: Span, budgets: seq<nat>, active: nat) {
    && q.Valid()
    && if q.Local() > 0 then SharesActive(q, active, budgets) && (q.split ==> active <= span.length)
       else forall i :: 0 <= i < |budgets| ==> budgets[i] == 0
  }

  lemma AssignStep(
    q: Request, rank: nat, span: Span, budgets: seq<nat>, active: nat, plans: seq<Plan>, offset: nat, size: nat,
    plan: Plan)
    requires Assignable(q, span, budgets, active) && Assigned(q, rank, span, budgets, active, plans, offset)
    requires |plans| < |budgets|
    requires size == WorkerPopulation(q, span.length, active, budgets[|plans|], q.Local() == span.length, |plans|)
    requires plan == Plan(rank, |plans|, if q.split then offset else 0, size, budgets[|plans|])
    ensures Assigned(q, rank, span, budgets, active, plans + [plan], offset + size)
  {
    if q.Local() > 0 {
      CoveredStep(q, span.length, active, |plans|);
      SharePopulated(q, span.length, active, budgets[|plans|], q.Local() == span.length, |plans|);
      if q.split {
        AppendSpan(plans, plan, span.offset, offset);
      }
    }
    assert Quotas(plans + [plan]) == budgets[..|plans| + 1];
  }

  lemma AssignStart(q: Request, rank: nat, span: Span, budgets: seq<nat>, active: nat)
    requires Assignable(q, span, budgets, active)
    ensures Assigned(q, rank, span, budgets, active, [], span.offset)
  {
    if q.Local() > 0 {
      CoveredStep(q, span.length, active, 0);
    }
  }

  lemma AssignEnd(q: Request, rank: nat, span: Span, budgets: seq<nat>, active: nat, plans: seq<Plan>, offset: nat)
    requires Assignable(q, span, budgets, active) && |plans| == |budgets|
    requires Assigned(q, rank, span, budgets, active, plans, offset)
    ensures Quotas(plans) == budgets && PlansWorkers(q, rank, plans) && Sized(q, span.length, active, plans)
    ensures q.split && q.Local() > 0 ==> Tiles(ActiveSpans(plans), span.offset, span.offset + span.length)
  {
    assert budgets[..|budgets|] == budgets;
    if q.Local() > 0 {
      CoveredStep(q, span.length, active, |budgets|);
    }
  }

  /** The plan loop: the offset runs through the rank span while the worker plans are appended. */
  method AssignSpans(q: Request, rank: nat, span: Span, budgets: seq<nat>, active: nat) returns (plans: seq<Plan>)
    requires Assignable(q, span, budgets, active) && Sum(budgets) == q.Local()
    ensures Quotas(plans) == budgets && PlansWorkers(q, rank, plans) && Sized(q, span.length, active, plans)
    ensures q.split && q.Local() > 0 ==> Tiles(ActiveSpans(plans), span.offset, span.offset + span.length)
  {
    var fullPass := Sum(budgets) == span.length;
    var offset := span.offset;
    plans := [];
    AssignStart(q, rank, span, budgets, active);
    for worker := 0 to |budgets|
      invariant |plans| == worker
      invariant Assigned(q, rank, span, budgets, active, plans, offset)
    {
      var size := WorkerPopulation(q, span.length, active, budgets[worker], fullPass, worker);
      var plan := Plan(rank, worker, if q.split then offset else 0, size, budgets[worker]);
      AssignStep(q, rank, span, budgets, active, plans, offset, size, plan);
      plans := plans + [plan];
      offset := offset + size;
    }
    AssignEnd(q, rank, span, budgets, active, plans, offset);
  }

  /** The quotas are the worker budgets of the rank, and in split mode the populations are fair. */
  ghost predicate PlansBudgets(q: Request, rank: nat, plans: seq<Plan>)
    requires q.Valid() && rank < q.ranks && |plans| > 0
  {
    var length := q.RankSpan(rank).length;
    && WorkerBudgets(q.Local(), |plans|, if q.split then length else |plans|, q.batch) == Ok(Quotas(plans))
    && (q.split ==> PlansFair(q, length, plans))
  }

  /** `derive_seed` takes 32-bit worker ids, so a shuffled loader has no more workers than that. */
  const SEEDED_WORKERS: nat := 0x1_0000_0000

  /** `prepare_partitions`: in split mode the plans of one rank tile its span exactly. */
  method PreparePartitions(q: Request, rank: nat, numWorkers: nat, shuffle: bool) returns (r: Result<seq<Plan>>)
    requires q.Valid() && rank < q.ranks
    ensures r.Ok? ==> |r.value| == Max(1, numWorkers) && PlansRank(q, rank, r.value)
    ensures r.Ok? ==> PlansBudgets(q, rank, r.value)
    ensures shuffle && numWorkers > 0x1_0000_0000 ==> r.Err?
    ensures r.Err? ==>
      || q.Population() > U64_MAX || q.Local() > U64_MAX || numWorkers > U64_MAX
      || (shuffle && numWorkers > 0x1_0000_0000)
  {
    r := PlanWorkers(q, rank, numWorkers);
    if r.Ok? && shuffle && |r.value| > SEEDED_WORKERS {
      r := Err(InvalidInput);
    }
  }

  method PlanWorkers(q: Request, rank: nat, numWorkers: nat) returns (r: Result<seq<Plan>>)
    requires q.Valid() && rank < q.ranks
    ensures r.Ok? ==> |r.value| == Max(1, numWorkers) && PlansRank(q, rank, r.value)
    ensures r.Ok? ==> PlansBudgets(q, rank, r.value)
    ensures r.Err? ==> q.Population() > U64_MAX || q.Local() > U64_MAX || numWorkers > U64_MAX
  {
    var count, workers := q.Local(), Max(1, numWorkers);
    var span, populations := Span(0, q.rows), workers;
    if q.split {
      var split := PartitionRows(q.Population(), q.ranks, rank);
      if split.Err? {
        return Err(split.error);
      }
      span, populations := split.value, split.value.length;
    }
    if count > 0 && q.split {
      RankSpanNonempty(q, rank);
    }
    var shares := WorkerBudgets(count, workers, populations, q.batch);
    if shares.Err? {
      QuotientAtMost(count, q.batch);
      return Err(shares.error);
    }
    var plans := AssignShares(q, rank, span, workers, populations, shares.value);
    r := Ok(plans);
  }

  /** The plans for a rank's shares. */
  method AssignShares(q: Request, rank: nat, span: Span, workers: nat, populations: nat, shares: seq<nat>)
    returns (plans: seq<Plan>)
    requires q.Valid() && rank < q.ranks && workers > 0
    requires WorkerBudgets(q.Local(), workers, populations, q.batch) == Ok(shares)
    requires q.split ==> span == q.RankSpan(rank) && populations == span.length
    ensures |plans| == workers && Quotas(plans) == shares && PlansRank(q, rank, plans)
    ensures q.split ==> PlansFair(q, span.length, plans)
  {
    var count := q.Local();
    BudgetsExact(count, workers, populations, q.batch);
    var active := CountActive(count, workers, populations, q.batch, shares);
    if count > 0 {
      ActiveShares(count, workers, populations, q.batch);
      ActiveIsPrefix(count, workers, populations, q.batch, 0);
    }
    plans := AssignSpans(q, rank, span, shares, active);
    if q.split {
      SizedIsFair(q, span.length, active, plans);
    }
  }

  lemma QuotientAtMost(x: nat, n: nat)
    requires n > 0
    ensures x / n <= x
  {
    if x / n > x {
      MulAtLeast(n, x / n);
    }
  }

  lemma AppendSpan(plans: seq<Plan>, plan: Plan, lo: nat, hi: nat)
    requires Tiles(ActiveSpans(plans), lo, hi) && plan.offset == hi
    requires plan.sampleCount > 0 <==> plan.populationSize > 0
    ensures Tiles(ActiveSpans(plans + [plan]), lo, hi + plan.populationSize)
  {
    var all := plans + [plan];
    assert all[..|plans|] == plans && all[|all| - 1] == plan;
    if plan.sampleCount > 0 {
      var one := [Span(hi, plan.populationSize)];
      assert one[1..] == [];
      TilesAppend(ActiveSpans(plans), one, lo, hi, hi + plan.populationSize);
      assert ActiveSpans(all) == ActiveSpans(plans) + one;
    } else {
      assert ActiveSpans(all) == ActiveSpans(plans);
    }
  }

  lemma ActiveShares(samples: nat, workers: nat, populations: nat, batch: nat)
    requires 0 < workers && 0 < populations && 0 < batch && 0 < samples
    ensures var active := ActiveWorkers(samples, workers, populations, batch);
            forall j {:trigger Share(samples, active, batch, j)} :: 0 <= j ==>
              (Share(samples, active, batch, j) > 0 <==> j < active)
  {
    var active := ActiveWorkers(samples, workers, populations, batch);
    forall j {:trigger Share(samples, active, batch, j)} | 0 <= j
      ensures Share(samples, active, batch, j) > 0 <==> j < active
    {
      if j < workers {
        ActiveIsPrefix(samples, workers, populations, batch, j);
      }
    }
  }

  lemma SharePopulated(q: Request, length: nat, active: nat, budget: nat, fullPass: bool, i: nat)
    requires q.Valid() && 0 < active && (q.split ==> active <= length)
    ensures WorkerPopulation(q, length, active, budget, fullPass, i) > 0 <==> budget > 0
  {
    if q.split {
      SplitNonempty(length, active, i);
    }
  }

  /** `sum(budget > 0 for budget in budgets)`. */
  method CountActive(samples: nat, workers: nat, populations: nat, batch: nat, budgets: seq<nat>) returns (active: nat)
    requires workers > 0 && batch > 0 && WorkerBudgets(samples, workers, populations, batch) == Ok(budgets)
    ensures samples > 0 ==> populations > 0 && active == ActiveWorkers(samples, workers, populations, batch)
    ensures samples == 0 ==> active == 0
  {
    active := 0;
    ghost var expected := if samples == 0 then 0 else ActiveWorkers(samples, workers, populations, batch);
    for i := 0 to workers
      invariant active == Min(i, expected)
    {
      if samples > 0 {
        ActiveIsPrefix(samples, workers, populations, batch, i);
      }
      if budgets[i] > 0 {
        active := active + 1;
      }
    }
  }

  // ---------------------------------------------------------------- coverage over all ranks

  /** Tilings of neighbouring ranges join into one tiling. */
  lemma {:induction false} JoinTilings(parts: seq<seq<Span>>, ends: seq<nat>)
    requires |ends| == |parts| + 1
    requires forall r :: 0 <= r < |parts| ==> Tiles(parts[r], ends[r], ends[r + 1])
    ensures Tiles(Flat(parts), ends[0], ends[|parts|])
    decreases |parts|
  {
    if parts != [] {
      var last := |parts| - 1;
      JoinTilings(parts[..last], ends[..last + 1]);
      TilesAppend(Flat(parts[..last]), parts[last], ends[0], ends[last], ends[last + 1]);
    }
  }

  /** The active spans of every rank, in rank order. */
  ghost function AllSpans(ranks: seq<seq<Plan>>): seq<Span> {
    Flat(seq(|ranks|, r requires 0 <= r < |ranks| => ActiveSpans(ranks[r])))
  }

  lemma RankTile(q: Request, rank: nat, plans: seq<Plan>, population: nat)
    requires q.Valid() && q.split && q.Local() > 0 && rank < q.ranks && PlansRank(q, rank, plans)
    requires population == q.Population()
    ensures Tiles(ActiveSpans(plans), SplitOffset(population, q.ranks, rank),
                  SplitOffset(population, q.ranks, rank + 1))
  {
    SplitTouches(population, q.ranks, rank);
  }

  /** Every rank and worker together cover `[0, P)` exactly once, even with different worker counts per rank. */
  lemma AllRanksTile(q: Request, ranks: seq<seq<Plan>>, population: nat)
    requires q.Valid() && q.split && q.Local() > 0 && |ranks| == q.ranks && population == q.Population()
    requires forall r :: 0 <= r < |ranks| ==> PlansRank(q, r, ranks[r])
    ensures Tiles(AllSpans(ranks), 0, population)
  {
    var parts := seq(|ranks|, r requires 0 <= r < |ranks| => ActiveSpans(ranks[r]));
    var ends := seq(|ranks| + 1, r requires 0 <= r => SplitOffset(population, q.ranks, r));
    forall r | 0 <= r < |parts| ensures Tiles(parts[r], ends[r], ends[r + 1]) {
      RankTile(q, r, ranks[r], population);
    }
    JoinTilings(parts, ends);
    SplitTouches(population, q.ranks, 0);
  }

  /** The span the benchmark's own validator expects of a rank, computed its way. */
  function ExpectedSpan(rows: nat, ranks: nat, rank: nat, quota: nat, wholeTable: bool): (r: Span)
    requires ranks > 0
  {
    if wholeTable then Span(rank * quota, quota)
    else
      var virtual := Max(rows, ranks);
      var size: nat, remainder: nat := virtual / ranks, virtual % ranks;
      Span(rank * size + Min(rank, remainder), size + if rank < remainder then 1 else 0)
  }

  lemma RankSpanIsExpected(q: Request, rank: nat)
    requires q.Valid() && rank < q.ranks
    ensures q.RankSpan(rank) == ExpectedSpan(q.rows, q.ranks, rank, q.Local(), q.samples == q.rows)
  {
    if q.samples == q.rows {
      DivModUnique(q.Population(), q.ranks, q.Local(), 0);
    } else if q.rows < q.ranks {
      DivModUnique(q.rows + q.ranks - 1, q.ranks, 1, q.rows - 1);
    }
  }

  // ---------------------------------------------------------------- rows behind the spans

  /** The metadata row at a virtual position: cyclic, through the shared permutation when shuffled. */
  function RowOf(order: Option<seq<nat>>, count: nat, position: nat): (r: nat)
    requires count > 0 && (order.Some? ==> |order.value| == count)
  {
    match order
    case None => position % count
    case Some(rows) => rows[position % count]
  }

  /** Position `i` of an index array after `+= offset % count` and `%= count`. */
  function Wrapped(count: nat, offset: nat, i: nat): (r: nat)
    requires count > 0
    ensures r < count
  {
    (i + offset % count) % count
  }

  lemma WrappedIsCyclic(count: nat, offset: nat, i: nat)
    requires count > 0
    ensures Wrapped(count, offset, i) == (offset + i) % count
    ensures offset % count + i < count ==> Wrapped(count, offset, i) == offset % count + i
  {
    CyclicContinues(offset, i, count);
    if offset % count + i < count {
      DivModUnique(offset % count + i, count, 0, offset % count + i);
    }
  }

  /** `population_selection`: no selection at all stands for the whole table in order. */
  function PopulationSelection(
    count: nat, offset: nat, length: nat, order: Option<seq<nat>>): (r: Result<Option<seq<nat>>>)
    requires count > 0
  {
    if length == 0 then Err(InvalidInput)
    else match order
      case None =>
        if offset == 0 && length == count then Ok(None)
        else Ok(Some(seq(length, i requires 0 <= i => Wrapped(count, offset, i))))
      case Some(rows) =>
        if |rows| != count then Err(InvalidInput)
        else
          var start := offset % count;
          if start + length <= count then Ok(Some(rows[start..start + length]))
          else Ok(Some(seq(length, i requires 0 <= i => rows[Wrapped(count, offset, i)])))
  }

  function SelectedRows(count: nat, selection: Option<seq<nat>>): (r: seq<nat>) {
    match selection
    case None => seq(count, i => i)
    case Some(rows) => rows
  }

  /** The row function of a shared order, as one value. */
  ghost function RowsOf(order: Option<seq<nat>>, count: nat): (r: nat -> nat)
    requires count > 0 && (order.Some? ==> |order.value| == count)
  {
    (position: nat) => RowOf(order, count, position)
  }

  /** The rows of `length` consecutive virtual positions. */
  ghost function Consecutive(row: nat -> nat, lo: nat, length: nat): (r: seq<nat>)
    ensures |r| == length && forall i :: 0 <= i < length ==> r[i] == row(lo + i)
    decreases length
  {
    if length == 0 then [] else Consecutive(row, lo, length - 1) + [row(lo + length - 1)]
  }

  lemma SelectedPlain(count: nat, offset: nat, length: nat, i: nat)
    requires count > 0 && i < length
    ensures var rows := SelectedRows(count, PopulationSelection(count, offset, length, None).value);
            |rows| == length && rows[i] == RowOf(None, count, offset + i)
  {
    if offset == 0 && length == count {
      DivModUnique(i, count, 0, i);
    } else {
      WrappedIsCyclic(count, offset, i);
    }
  }

  lemma SelectedOrdered(offset: nat, length: nat, order: seq<nat>, i: nat)
    requires |order| > 0 && i < length
    ensures var rows := SelectedRows(|order|, PopulationSelection(|order|, offset, length, Some(order)).value);
            |rows| == length && rows[i] == RowOf(Some(order), |order|, offset + i)
  {
    WrappedIsCyclic(|order|, offset, i);
  }

  lemma SelectedAt(count: nat, offset: nat, length: nat, order: Option<seq<nat>>, i: nat, rows: seq<nat>)
    requires count > 0 && PopulationSelection(count, offset, length, order).Ok? && i < length
    requires rows == SelectedRows(count, PopulationSelection(count, offset, length, order).value)
    ensures |rows| == length && rows[i] == RowOf(order, count, offset + i)
  {
    match order {
      case None => SelectedPlain(count, offset, length, i);
      case Some(o) => SelectedOrdered(offset, length, o, i);
    }
  }

  /** All three selection shapes mean the same cyclic span of rows. */
  lemma SelectionIsCyclic(count: nat, offset: nat, length: nat, order: Option<seq<nat>>, rows: seq<nat>)
    requires count > 0 && PopulationSelection(count, offset, length, order).Ok?
    requires rows == SelectedRows(count, PopulationSelection(count, offset, length, order).value)
    ensures order.Some? ==> |order.value| == count
    ensures rows == Consecutive(RowsOf(order, count), offset, length)
  {
    var expected := Consecutive(RowsOf(order, count), offset, length);
    SelectedAt(count, offset, length, order, 0, rows);
    forall i | 0 <= i < length ensures rows[i] == expected[i] {
      SelectedAt(count, offset, length, order, i, rows);
    }
  }

  ghost function ChosenRows(row: nat -> nat, spans: seq<Span>): seq<nat>
    decreases |spans|
  {
    if spans == [] then []
    else Consecutive(row, spans[0].offset, spans[0].length) + ChosenRows(row, spans[1..])
  }

  lemma {:induction false} TiledRows(row: nat -> nat, spans: seq<Span>, lo: nat, length: nat)
    requires Tiles(spans, lo, lo + length)
    ensures ChosenRows(row, spans) == Consecutive(row, lo, length)
    decreases |spans|
  {
    if spans != [] {
      var first := spans[0].length;
      TilesForward(spans[1..], lo + first, lo + length);
      TiledRows(row, spans[1..], lo + first, length - first);
    }
  }

  lemma {:induction false} TilesForward(spans: seq<Span>, lo: nat, hi: nat)
    requires Tiles(spans, lo, hi)
    ensures lo <= hi
    decreases |spans|
  {
    if spans != [] {
      TilesForward(spans[1..], lo + spans[0].length, hi);
    }
  }

  /** One more position moves either the remainder or the quotient. */
  lemma NextPosition(p: nat, count: nat)
    requires count > 0
    ensures if p % count + 1 < count then (p + 1) / count == p / count && (p + 1) % count == p % count + 1
            else (p + 1) / count == p / count + 1 && (p + 1) % count == 0
  {
    if p % count + 1 < count {
      DivModUnique(p + 1, count, p / count, p % count + 1);
    } else {
      Distribute(p / count, 1, count);
      DivModUnique(p + 1, count, p / count + 1, 0);
    }
  }

  /** How often row `r` of the order is reached by the first `population` positions. */
  ghost function Reached(population: nat, count: nat, r: nat): nat
    requires count > 0
  {
    population / count + if r < population % count then 1 else 0
  }

  lemma ReachedStep(p: nat, count: nat, r: nat)
    requires count > 0 && r < count
    ensures Reached(0, count, r) == 0
    ensures Reached(p + 1, count, r) == Reached(p, count, r) + if p % count == r then 1 else 0
  {
    DivModUnique(0, count, 0, 0);
    NextPosition(p, count);
  }

  ghost function Occurrences(s: seq<nat>, value: nat): nat { multiset(s)[value] }

  lemma OneMoreOccurrence(row: nat -> nat, p: nat, value: nat)
    ensures Occurrences(Consecutive(row, 0, 0), value) == 0
    ensures Occurrences(Consecutive(row, 0, p + 1), value) ==
            Occurrences(Consecutive(row, 0, p), value) + if row(p) == value then 1 else 0
  {
    assert Consecutive(row, 0, p + 1) == Consecutive(row, 0, p) + [row(p)];
  }

  lemma RowHit(order: Option<seq<nat>>, count: nat, p: nat, r: nat)
    requires r < count && (order.Some? ==> |order.value| == count && NoDuplicates(order.value))
    ensures RowsOf(order, count)(p) == (if order.None? then r else order.value[r]) <==> p % count == r
  {
  }

  lemma {:induction false} RowMultiplicity(order: Option<seq<nat>>, count: nat, population: nat, r: nat)
    requires r < count && (order.Some? ==> |order.value| == count && NoDuplicates(order.value))
    ensures Occurrences(Consecutive(RowsOf(order, count), 0, population), if order.None? then r else order.value[r]) ==
            Reached(population, count, r)
    decreases population
  {
    var p := if population == 0 then 0 else population - 1;
    ReachedStep(p, count, r);
    RowHit(order, count, p, r);
    OneMoreOccurrence(RowsOf(order, count), p, if order.None? then r else order.value[r]);
    if population > 0 {
      RowMultiplicity(order, count, p, r);
    }
  }

  lemma ReachedBounds(population: nat, count: nat, r: nat)
    requires count > 0
    ensures population / count <= Reached(population, count, r) <= (population + count - 1) / count
  {
    CeilingBatches(population, count);
  }

  /** How often all consumers together choose row `r` of the shared order. */
  ghost function TimesChosen(order: Option<seq<nat>>, rows: nat, spans: seq<Span>, r: nat): nat
    requires r < rows && (order.Some? ==> |order.value| == rows)
  {
    Occurrences(ChosenRows(RowsOf(order, rows), spans), if order.None? then r else order.value[r])
  }

  lemma TilingOccurrences(row: nat -> nat, population: nat, spans: seq<Span>, value: nat)
    requires Tiles(spans, 0, population)
    ensures Occurrences(ChosenRows(row, spans), value) == Occurrences(Consecutive(row, 0, population), value)
  {
    TiledRows(row, spans, 0, population);
  }

  lemma TilingReaches(rows: nat, population: nat, spans: seq<Span>, order: Option<seq<nat>>, r: nat)
    requires r < rows && Tiles(spans, 0, population)
    requires order.Some? ==> |order.value| == rows && NoDuplicates(order.value)
    ensures TimesChosen(order, rows, spans, r) == Reached(population, rows, r)
  {
    TilingOccurrences(RowsOf(order, rows), population, spans, if order.None? then r else order.value[r]);
    RowMultiplicity(order, rows, population, r);
  }

  lemma TilingCovers(rows: nat, population: nat, spans: seq<Span>, order: Option<seq<nat>>, r: nat)
    requires r < rows && Tiles(spans, 0, population)
    requires order.Some? ==> |order.value| == rows && NoDuplicates(order.value)
    ensures population / rows <= TimesChosen(order, rows, spans, r) <= (population + rows - 1) / rows
  {
    TilingReaches(rows, population, spans, order, r);
    ReachedBounds(population, rows, r);
  }

  /** The rows a worker's dataset is built over: the code's own selection for its plan. */
  ghost function SelectionOf(order: Option<seq<nat>>, rows: nat, plan: Plan): seq<nat>
    requires rows > 0
  {
    match PopulationSelection(rows, plan.offset, plan.populationSize, order)
    case Err(_) => []
    case Ok(selection) => SelectedRows(rows, selection)
  }

  /** The selections of one rank's workers, one after the other; a worker without a budget builds none. */
  ghost function RankSelection(order: Option<seq<nat>>, rows: nat, plans: seq<Plan>): seq<nat>
    requires rows > 0
  {
    if plans == [] then []
    else
      var last := plans[|plans| - 1];
      RankSelection(order, rows, plans[..|plans| - 1])
      + if last.sampleCount > 0 then SelectionOf(order, rows, last) else []
  }

  ghost function AllSelections(order: Option<seq<nat>>, rows: nat, ranks: seq<seq<Plan>>): seq<nat>
    requires rows > 0
  {
    if ranks == [] then []
    else AllSelections(order, rows, ranks[..|ranks| - 1]) + RankSelection(order, rows, ranks[|ranks| - 1])
  }

  lemma {:induction false} ChosenAppend(row: nat -> nat, a: seq<Span>, b: seq<Span>)
    ensures ChosenRows(row, a + b) == ChosenRows(row, a) + ChosenRows(row, b)
    decreases |a|
  {
    if a == [] {
      assert a + b == b;
    } else {
      ChosenAppend(row, a[1..], b);
      assert (a + b)[1..] == a[1..] + b;
    }
  }

  lemma OneChosen(row: nat -> nat, span: Span)
    ensures ChosenRows(row, [span]) == Consecutive(row, span.offset, span.length)
  {
    assert [span][1..] == [];
  }

  /** Budgets and populations come together, and the order fits the table. */
  ghost predicate Selectable(order: Option<seq<nat>>, rows: nat, plans: seq<Plan>) {
    && rows > 0 && (order.Some? ==> |order.value| == rows)
    && forall i :: 0 <= i < |plans| ==> (plans[i].sampleCount > 0 <==> plans[i].populationSize > 0)
  }

  lemma {:induction false} RankSelectionIsChosen(order: Option<seq<nat>>, rows: nat, plans: seq<Plan>)
    requires Selectable(order, rows, plans)
    ensures RankSelection(order, rows, plans) == ChosenRows(RowsOf(order, rows), ActiveSpans(plans))
    decreases |plans|
  {
    if plans != [] {
      var last := plans[|plans| - 1];
      var row, before := RowsOf(order, rows), ActiveSpans(plans[..|plans| - 1]);
      RankSelectionIsChosen(order, rows, plans[..|plans| - 1]);
      if last.sampleCount > 0 {
        SelectionIsCyclic(rows, last.offset, last.populationSize, order, SelectionOf(order, rows, last));
        OneChosen(row, Span(last.offset, last.populationSize));
        ChosenAppend(row, before, [Span(last.offset, last.populationSize)]);
      } else {
        assert ActiveSpans(plans) == before;
      }
    }
  }

  lemma SpansOfMore(ranks: seq<seq<Plan>>)
    requires ranks != []
    ensures AllSpans(ranks) == AllSpans(ranks[..|ranks| - 1]) + ActiveSpans(ranks[|ranks| - 1])
  {
    var last := |ranks| - 1;
    var parts := seq(|ranks|, r requires 0 <= r < |ranks| => ActiveSpans(ranks[r]));
    var fewer := ranks[..last];
    assert parts[..last] == seq(|fewer|, r requires 0 <= r < |fewer| => ActiveSpans(fewer[r]));
  }

  lemma {:induction false} AllSelectionsAreChosen(order: Option<seq<nat>>, rows: nat, ranks: seq<seq<Plan>>)
    requires rows > 0 && (order.Some? ==> |order.value| == rows)
    requires forall k :: 0 <= k < |ranks| ==> Selectable(order, rows, ranks[k])
    ensures AllSelections(order, rows, ranks) == ChosenRows(RowsOf(order, rows), AllSpans(ranks))
    decreases |ranks|
  {
    if ranks != [] {
      var last := |ranks| - 1;
      AllSelectionsAreChosen(order, rows, ranks[..last]);
      RankSelectionIsChosen(order, rows, ranks[last]);
      SpansOfMore(ranks);
      ChosenAppend(RowsOf(order, rows), AllSpans(ranks[..last]), ActiveSpans(ranks[last]));
    }
  }

  /**
   Over the selections the code builds for all ranks and workers, every metadata row is chosen the floor or
   the ceiling of P / rows times.
   */
  lemma PartitionCoverage(
    q: Request, ranks: seq<seq<Plan>>, order: Option<seq<nat>>, rows: nat, r: nat, population: nat, chosen: seq<nat>)
    requires q.Valid() && q.split && q.Local() > 0 && |ranks| == q.ranks && r < rows == q.rows
    requires forall k :: 0 <= k < |ranks| ==> PlansRank(q, k, ranks[k])
    requires order.Some? ==> |order.value| == rows && NoDuplicates(order.value)
    requires population == q.Population() && chosen == AllSelections(order, rows, ranks)
    ensures var row := if order.None? then r else order.value[r];
            population / rows <= Occurrences(chosen, row) <= (population + rows - 1) / rows
  {
    AllRanksTile(q, ranks, population);
    forall k | 0 <= k < |ranks|
      ensures Selectable(order, rows, ranks[k])
    {
      assert PlansRank(q, k, ranks[k]);
    }
    AllSelectionsAreChosen(order, rows, ranks);
    TilingCovers(rows, population, AllSpans(ranks), order, r);
  }
}
