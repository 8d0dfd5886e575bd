/**
 Epoch plans and the cursors that make successive epochs continue one another.

 All offsets are 64-bit machine integers, so every intermediate value below is checked to fit.
 */
module Epochs {
  import opened Arithmetic
  import opened Common

  /** `wrapping_add_mod`: cyclic addition whose intermediate values never leave 64 bits. */
  function WrappingAddMod(start: u64, offset: u64, modulo: u64): (r: Option<u64>)
    ensures r.None? <==> modulo == 0
    ensures modulo > 0 && start < modulo ==> r == Some((start + offset) % modulo)
  {
    if modulo == 0 then None
    else
      var reduced: u64 := offset % modulo;
      var distance: u64 := modulo - reduced;
      if start >= distance then
        (if start < modulo then CyclicSum(start, offset, modulo); Some(start - distance) else Some(start - distance))
      else CyclicSum(start, offset, modulo); Some(start + reduced)
  }

  lemma CyclicSum(start: nat, offset: nat, modulo: nat)
    requires start < modulo
    ensures (start + offset) % modulo ==
            if start >= modulo - offset % modulo then start - (modulo - offset % modulo)
            else start + offset % modulo
  {
    var reduced := offset % modulo;
    CyclicContinues(offset, start, modulo);
    if start + reduced >= modulo {
      DivModUnique(start + reduced, modulo, 1, start + reduced - modulo);
    } else {
      DivModUnique(start + reduced, modulo, 0, start + reduced);
    }
  }

  /** `advance_cyclic_offset`: the next epoch's first row. */
  function AdvanceCyclicOffset(start: u64, step: u64, population: u64): (r: Result<u64>)
    ensures r.Err? <==> population == 0
    ensures r.Ok? && start < population ==> r.value == (start + step) % population && r.value < population
  {
    match WrappingAddMod(start, step, population)
    case None => Err(InvalidInput)
    case Some(next) => Ok(next)
  }

  /** `advance_draw_offset`: draws are never reused, so the counter refuses to wrap. */
  function AdvanceDrawOffset(start: u64, step: u64): (r: Result<u64>)
    ensures r.Ok? <==> start + step <= U64_MAX
    ensures r.Ok? ==> r.value == start + step
  {
    if start + step > U64_MAX then Err(InvalidInput) else Ok(start + step)
  }

  /** Draw window of one epoch; which row a numbered draw selects is left to `pick`. */
  datatype Sampler = Sampler(nextDraw: u64, remaining: u64)

  datatype EpochPlan =
    | Sequential(len: u64, start: u64, population: u64, physical: Option<seq<nat>>)
    | Shuffled(sampler: Sampler, pick: nat -> nat, physical: Option<seq<nat>>)
  {
    function Len(): u64 {
      match this
      case Sequential(len, _, _, _) => len
      case Shuffled(sampler, _, _) => sampler.remaining
    }
  }

  /** `EpochSampler::next`: the saturating counter is the one that could repeat a draw. */
  function NextDraw(s: Sampler): (r: (Option<u64>, Sampler)) {
    if s.remaining == 0 then (None, s)
    else (Some(s.nextDraw), Sampler(if s.nextDraw == U64_MAX then U64_MAX else s.nextDraw + 1, s.remaining - 1))
  }

  /** The sampler after `k` draws. */
  ghost function AfterDraws(s: Sampler, k: nat): Sampler {
    if k == 0 then s else NextDraw(AfterDraws(s, k - 1)).1
  }

  lemma {:induction false} DrawCounter(start: u64, step: u64, k: nat)
    requires k <= step
    ensures AfterDraws(Sampler(start, step), k) == Sampler(Min(start + k, U64_MAX), step - k)
    decreases k
  {
    if k > 0 {
      DrawCounter(start, step, k - 1);
    }
  }

  /**
   A window of draws is accepted exactly when its sampler never saturates: then its draws are numbered
   `start`, `start + 1` and so on without a repeat, and the next window starts where this one ends.
   */
  lemma DrawWindowsAdjoin(start: u64, step: u64)
    ensures AdvanceDrawOffset(start, step).Ok? <==> AfterDraws(Sampler(start, step), step).nextDraw == start + step
    ensures AdvanceDrawOffset(start, step).Ok? ==>
      && AdvanceDrawOffset(start, step).value == AfterDraws(Sampler(start, step), step).nextDraw
      && forall k :: 0 <= k < step ==> NextDraw(AfterDraws(Sampler(start, step), k)).0 == Some(start + k)
  {
    DrawCounter(start, step, step);
    forall k | 0 <= k < step
      ensures AfterDraws(Sampler(start, step), k) == Sampler(Min(start + k, U64_MAX), step - k)
    {
      DrawCounter(start, step, k);
    }
  }

  function Physical(indices: Option<seq<nat>>, row: nat): (r: Option<nat>) {
    match indices
    case None => Some(row)
    case Some(rows) => if row < |rows| then Some(rows[row]) else None
  }

  /** `next_physical_index`: the plan hands out rows one at a time and may change as it does. */
  function NextPhysicalIndex(plan: EpochPlan, sequence: u64): (r: (Option<nat>, EpochPlan)) {
    match plan
    case Sequential(len, start, population, physical) =>
      (if sequence >= len then None
       else match WrappingAddMod(start, sequence, population)
            case None => None
            case Some(row) => Physical(physical, row), plan)
    case Shuffled(sampler, pick, physical) =>
      var (draw, rest) := NextDraw(sampler);
      (match draw case None => None case Some(d) => Physical(physical, pick(d)), plan.(sampler := rest))
  }

  /** What `epoch_plan` guarantees about the plans it hands out. */
  ghost predicate PlanValid(plan: EpochPlan) {
    match plan
    case Sequential(_, start, population, physical) =>
      start < population && (physical.Some? ==> |physical.value| == population)
    case Shuffled(sampler, pick, physical) =>
      && sampler.nextDraw + sampler.remaining <= U64_MAX
      && (physical.Some? ==> forall d :: 0 <= d ==> pick(d) < |physical.value|)
  }

  /** The k-th sample of an epoch, stated without any cursor. */
  function Planned(plan: EpochPlan, k: nat): nat
    requires PlanValid(plan) && k < plan.Len()
  {
    match plan
    case Sequential(_, start, population, physical) =>
      Physical(physical, (start + k) % population).value
    case Shuffled(sampler, pick, physical) => Physical(physical, pick(sampler.nextDraw + k)).value
  }

  function Window(plan: EpochPlan): (w: seq<nat>)
    requires PlanValid(plan)
    ensures |w| == plan.Len()
    ensures forall k :: 0 <= k < |w| ==> w[k] == Planned(plan, k)
  {
    seq(plan.Len(), k requires 0 <= k < plan.Len() => Planned(plan, k))
  }

  /** The plan after `k` calls. */
  ghost function After(plan: EpochPlan, k: nat): EpochPlan
    requires PlanValid(plan) && k <= plan.Len()
  {
    match plan
    case Sequential(_, _, _, _) => plan
    case Shuffled(s, _, _) => plan.(sampler := Sampler(s.nextDraw + k, s.remaining - k))
  }

  /** Handing out rows one by one yields exactly the planned window: no row is skipped, repeated or missing. */
  lemma PlanDelivers(plan: EpochPlan, k: nat)
    requires PlanValid(plan) && k < plan.Len()
    ensures NextPhysicalIndex(After(plan, k), k) == (Some(Planned(plan, k)), After(plan, k + 1))
  {
  }

  /** The population an epoch iterates over; table weights are judged by `weightsValid`. */
  datatype Active = Full | Table(rows: seq<nat>, weightsValid: bool)

  ghost function PopulationOf(active: Active, total: nat): nat {
    if active.Full? then total else |active.rows|
  }

  /** Position `i` of one uninterrupted stream over the population: cyclic rows, or numbered draws. */
  ghost function StreamRow(active: Active, n: nat, shuffle: bool, pick: nat -> nat, i: nat): nat
    requires n > 0
  {
    var row := if shuffle then pick(i) else i % n;
    if active.Full? || row >= |active.rows| then row else active.rows[row]
  }

  ghost predicate IsStream(active: Active, n: nat, shuffle: bool, pick: nat -> nat, rows: seq<nat>)
    requires n > 0
  {
    forall i :: 0 <= i < |rows| ==> rows[i] == StreamRow(active, n, shuffle, pick, i)
  }

  /** A window that starts at the cursor extends the stream; nothing is skipped or repeated at the seam. */
  lemma WindowExtendsStream(active: Active, n: nat, shuffle: bool, pick: nat -> nat, rows: seq<nat>, plan: EpochPlan)
    requires n > 0 && IsStream(active, n, shuffle, pick, rows) && PlanValid(plan)
    requires active.Table? ==> |active.rows| == n
    requires plan.physical == if active.Full? then None else Some(active.rows)
    requires if shuffle then plan.Shuffled? && plan.pick == pick && plan.sampler.nextDraw == |rows|
             else plan.Sequential? && plan.population == n && plan.start == |rows| % n
    ensures IsStream(active, n, shuffle, pick, rows + Window(plan))
  {
    var all := rows + Window(plan);
    forall i | |rows| <= i < |all| ensures all[i] == StreamRow(active, n, shuffle, pick, i) {
      var k := i - |rows|;
      assert all[i] == Planned(plan, k);
      CyclicContinues(|rows|, k, n);
    }
  }

  /** The dataset's mutable cursor state, with the rows its epochs have covered since the last update. */
  class DatasetState {
    const shuffle: bool
    const totalSamples: u64
    const pick: nat -> nat -> nat
    var active: Active
    var epochLen: u64
    var sequentialOffset: u64
    var shuffledDrawOffset: u64
    ghost var covered: seq<nat>

    ghost function Population(): nat
      reads this
    {
      PopulationOf(active, totalSamples)
    }

    /** The cursors always stand exactly where one uninterrupted stream has got to. */
    ghost predicate Valid()
      reads this
    {
      && totalSamples > 0 && epochLen > 0
      && 0 < Population() <= U64_MAX
      && (forall n: nat, d: nat :: n > 0 ==> pick(n)(d) < n)
      && IsStream(active, Population(), shuffle, pick(Population()), covered)
      && (!shuffle ==> sequentialOffset == |covered| % Population())
      && (shuffle ==> shuffledDrawOffset == |covered|)
    }

    constructor (total: u64, shuffle: bool, pick: nat -> nat -> nat)
      requires total > 0 && forall n: nat, d: nat :: n > 0 ==> pick(n)(d) < n
      ensures Valid() && active.Full? && epochLen == total && this.shuffle == shuffle
      ensures covered == [] && totalSamples == total && this.pick == pick && fresh(this)
    {
      this.shuffle, totalSamples, this.pick := shuffle, total, pick;
      active, epochLen := Full, total;
      sequentialOffset, shuffledDrawOffset := 0, 0;
      covered := [];
    }

    /** `set_epoch_len`: future windows change length, the stream does not move. */
    method SetEpochLen(len: u64) returns (r: Result<()>)
      requires Valid()
      modifies this`epochLen
      ensures Valid()
      ensures r.Ok? <==> len > 0
      ensures epochLen == if len > 0 then len else old(epochLen)
    {
      if len == 0 {
        return Err(InvalidInput);
      }
      epochLen := len;
      r := Ok(());
    }

    /** `replace_active`: a new population starts a new stream; an empty one changes nothing. */
    method ReplaceActive(rows: seq<nat>, weightsValid: bool) returns (r: Result<()>)
      requires Valid() && |rows| <= U64_MAX
      modifies this
      ensures Valid()
      ensures r.Ok? <==> rows != []
      ensures r.Ok? ==> active == Table(rows, weightsValid) && epochLen == |rows| && covered == []
      ensures r.Err? ==> unchanged(this)
    {
      if |rows| == 0 {
        return Err(InvalidInput);
      }
      active := Table(rows, weightsValid);
      epochLen := |rows|;
      sequentialOffset, shuffledDrawOffset := 0, 0;
      covered := [];
      r := Ok(());
    }

    /**
     `epoch_plan`: the window handed out continues the stream where the previous window stopped,
     whatever the epoch lengths were; a refused plan leaves every cursor where it was.
     */
    method EpochPlan() returns (r: Result<EpochPlan>)
      requires Valid()
      modifies this`sequentialOffset, this`shuffledDrawOffset, this`covered
      ensures Valid()
      ensures r.Ok? ==> PlanValid(r.value) && r.value.Len() == epochLen
      ensures r.Ok? ==> covered == old(covered) + Window(r.value)
      ensures r.Err? ==> unchanged(this)
      ensures r.Err? <==>
        old(shuffle && (shuffledDrawOffset + epochLen > U64_MAX || (active.Table? && !active.weightsValid)))
    {
      var population: u64 := if active.Full? then totalSamples else |active.rows|;
      var physical := if active.Full? then None else Some(active.rows);
      var plan;
      if !shuffle {
        var start := sequentialOffset;
        var next := AdvanceCyclicOffset(start, epochLen, population);
        CyclicContinues(|covered|, epochLen, population);
        plan := Sequential(epochLen, start, population, physical);
        sequentialOffset := next.value;
      } else {
        var start := shuffledDrawOffset;
        var next := AdvanceDrawOffset(start, epochLen);
        if next.Err? {
          return Err(next.error);
        }
        if active.Table? && !active.weightsValid {
          return Err(InvalidInput);
        }
        plan := Shuffled(Sampler(start, epochLen), pick(population), physical);
        shuffledDrawOffset := next.value;
      }
      WindowExtendsStream(active, population, shuffle, pick(population), covered, plan);
      covered := covered + Window(plan);
      r := Ok(plan);
    }
  }
}
