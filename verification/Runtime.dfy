/**
 The dataset iterator: it keeps a bounded window of reads on the worker pool and hands samples out in
 planned order, whatever order the workers finish in.

 `inFlight` is the environment's share of the state: the sequences queued, running or finished but
 not received, each with the physical index its job reads. A receive may return any of them.
 */
module Runtime {
  import opened Common
  import opened Epochs

  /** Outcome of one `next` call. */
  datatype Item<+S> = End | Sample(value: S) | Failed(error: Error)

  class RuntimeIterator<S(0)> {
    const load: nat -> Result<S>
    const total: u64
    const parallelism: nat
    const calm: bool
    ghost const whole: EpochPlan
    var plan: EpochPlan
    var pending: map<nat, S>
    var scheduled: nat
    var emitted: nat
    var cancelled: bool
    var inFlight: map<nat, nat>
    ghost var delivered: seq<S>
    ghost var failed: bool

    /** Running, queued and pending sequences partition the window between emission and scheduling. */
    ghost predicate WindowValid()
      reads this
    {
      && emitted <= scheduled <= total
      && scheduled - emitted <= parallelism
      && (forall k :: emitted <= k < scheduled <==> k in pending || k in inFlight)
      && (forall k :: k in pending ==> k !in inFlight)
    }

    ghost predicate ContentsValid()
      reads this
      requires PlanValid(whole) && total == whole.Len() && WindowValid()
    {
      && plan == After(whole, scheduled)
      && (forall k :: k in inFlight ==> inFlight[k] == Planned(whole, k))
      && (forall k :: k in pending ==> load(Planned(whole, k)) == Ok(pending[k]))
    }

    /** The samples handed out so far are exactly the first part of the plan, in order. */
    ghost predicate DeliveredPrefix()
      reads this
    {
      && PlanValid(whole) && total == whole.Len() && |delivered| <= total
      && forall k :: 0 <= k < |delivered| ==> load(Planned(whole, k)) == Ok(delivered[k])
    }

    /** Nothing can go wrong any more: the pool takes every job, and every sample still to come can be read. */
    ghost predicate Faultless()
      reads this`emitted
    {
      && calm && PlanValid(whole) && total == whole.Len()
      && forall k :: emitted <= k < total ==> load(Planned(whole, k)).Ok?
    }

    ghost predicate Valid()
      reads this
    {
      && parallelism > 0
      && DeliveredPrefix()
      && (if failed then emitted == total && cancelled
          else |delivered| == emitted && WindowValid() && ContentsValid())
    }

    constructor Prepare(plan: EpochPlan, load: nat -> Result<S>, parallelism: nat, calm: bool)
      requires PlanValid(plan) && parallelism > 0
      ensures Valid() && this.calm == calm && this.load == load && whole == plan && this.parallelism == parallelism
      ensures !failed && delivered == [] && scheduled == emitted == 0
      ensures fresh(this)
    {
      this.load, this.parallelism, this.calm, total := load, parallelism, calm, plan.Len();
      this.whole, this.plan := plan, plan;
      pending, inFlight := map[], map[];
      scheduled, emitted, cancelled := 0, 0, false;
      delivered, failed := [], false;
    }

    /** `schedule_next`: the pool may refuse the job only when its workers are gone. */
    method ScheduleNext() returns (r: Result<()>)
      requires Valid() && !failed && scheduled < total && scheduled - emitted < parallelism
      modifies this`plan, this`inFlight, this`scheduled
      ensures r.Ok? ==> Valid() && scheduled == old(scheduled) + 1
      ensures r.Err? ==> scheduled == old(scheduled) && inFlight == old(inFlight)
      ensures calm ==> r.Ok?
    {
      var (index, rest) := NextPhysicalIndex(plan, scheduled);
      PlanDelivers(whole, scheduled);
      plan := rest;
      var accepted: bool := *;
      if index.None? || !(accepted || calm) {
        return Err(WorkerFailed);
      }
      inFlight := inFlight[scheduled := index.value];
      scheduled := scheduled + 1;
      r := Ok(());
    }

    /** `schedule_available`: fill the window, counting reordered results against the bound. */
    method ScheduleAvailable() returns (r: Result<()>)
      requires Valid() && !failed
      modifies this`plan, this`inFlight, this`scheduled
      ensures r.Ok? ==> Valid() && (scheduled == total || scheduled - emitted == parallelism)
      ensures calm ==> r.Ok?
    {
      while scheduled - emitted < parallelism && scheduled < total
        invariant Valid() && !failed
        decreases total - scheduled
      {
        r := ScheduleNext();
        if r.Err? {
          return;
        }
      }
      r := Ok(());
    }

    /** A terminal error: later calls return `End` and running jobs see the cancellation flag. */
    method Fail()
      requires parallelism > 0 && DeliveredPrefix()
      modifies this`emitted, this`cancelled, this`failed
      ensures Valid() && failed
    {
      emitted, cancelled, failed := total, true, true;
    }

    /** Advance past the sample at the head of the window. */
    method Emit(sample: S) returns (r: Item<S>)
      requires Valid() && !failed && emitted < scheduled && load(Planned(whole, emitted)) == Ok(sample)
      modifies this`pending, this`inFlight, this`emitted, this`delivered
      ensures Valid() && !failed && emitted == old(emitted) + 1
      ensures delivered == old(delivered) + [sample] && r == Sample(sample)
    {
      pending, inFlight := pending - {emitted}, inFlight - {emitted};
      delivered := delivered + [sample];
      emitted := emitted + 1;
      r := Sample(sample);
    }

    /** Keep a completed future sample until its turn; it cannot already be waiting there. */
    method Buffer(sequence: nat, sample: S)
      requires Valid() && !failed && sequence in inFlight && load(inFlight[sequence]) == Ok(sample)
      modifies this`pending, this`inFlight
      ensures Valid() && sequence !in old(pending) && pending == old(pending)[sequence := sample]
      ensures inFlight.Keys == old(inFlight.Keys) - {sequence} && |inFlight.Keys| < old(|inFlight.Keys|)
    {
      assert sequence !in pending;
      SubsetSize(inFlight.Keys - {sequence}, inFlight.Keys);
      pending, inFlight := pending[sequence := sample], inFlight - {sequence};
    }

    /** One receive: any job in flight may be the next to finish. */
    method Receive() returns (sequence: nat, result: Result<S>)
      requires Valid() && !failed && emitted < scheduled && emitted !in pending
      ensures sequence in inFlight && (result.Ok? ==> load(inFlight[sequence]) == result)
      ensures sequence == emitted && result.Ok? ==> load(Planned(whole, emitted)) == result
      ensures Faultless() ==> result.Ok?
    {
      assert emitted in inFlight;
      sequence :| sequence in inFlight;
      assert inFlight[sequence] == Planned(whole, sequence);
      result := RunJob(inFlight[sequence]);
    }

    /**
     `next`: the sample returned is the next one of the plan. Waiting is never in vain, because the
     sequence it waits for is in flight.
     */
    method Next() returns (r: Item<S>)
      requires Valid()
      modifies this
      ensures Valid()
      ensures r.End? <==> old(emitted) == total
      ensures r.End? ==> delivered == old(delivered) && failed == old(failed)
      ensures r.Sample? ==> !failed && emitted == old(emitted) + 1 && delivered == old(delivered) + [r.value]
      ensures r.Failed? ==> failed && delivered == old(delivered)
      ensures old(Faultless()) ==> !r.Failed? && Faultless()
    {
      if emitted >= total {
        return End;
      }
      var scheduling := ScheduleAvailable();
      if scheduling.Err? {
        Fail();
        return Failed(scheduling.error);
      }
      while emitted !in pending
        invariant Valid() && !failed && emitted == old(emitted) < scheduled && emitted < total
        invariant delivered == old(delivered)
        decreases |inFlight.Keys|
      {
        var sequence, result := Receive();
        if result.Err? {
          Fail();
          return Failed(result.error);
        }
        if sequence == emitted {
          r := Emit(result.value);
          return;
        }
        Buffer(sequence, result.value);
      }
      r := Emit(pending[emitted]);
    }

    /** A worker's read: the stored sample, or an error such as an unreadable shard. */
    method RunJob(index: nat) returns (r: Result<S>)
      ensures r.Ok? || calm ==> r == load(index)
    {
      var broken: bool := *;
      r := if broken && !calm then Err(Io) else load(index);
    }

    /** Results never outnumber the result channel's slots, so no worker blocks on this iterator. */
    lemma OutstandingFits()
      requires Valid() && !failed
      ensures |inFlight.Keys| + |pending.Keys| == scheduled - emitted <= parallelism
    {
      assert inFlight.Keys + pending.Keys == Interval(emitted, scheduled);
      assert inFlight.Keys !! pending.Keys;
    }
  }

  /** `start`: an empty plan has no window to run, which the channel constructor refuses. */
  method Start<S(0)>(plan: EpochPlan, load: nat -> Result<S>, prefetch: nat, workers: nat, calm: bool)
    returns (r: Result<RuntimeIterator<S>>)
    requires PlanValid(plan) && prefetch > 0 && workers > 0
    ensures plan.Len() == 0 ==> r.Err?
    ensures calm && plan.Len() > 0 ==> r.Ok?
    ensures r.Ok? ==> fresh(r.value) && r.value.Valid() && !r.value.failed && r.value.calm == calm
    ensures r.Ok? ==> r.value.whole == plan && r.value.load == load && r.value.delivered == [] && r.value.emitted == 0
    ensures r.Ok? ==> r.value.parallelism == Min(Min(workers, prefetch), plan.Len())
  {
    var parallelism := Min(Min(workers, prefetch), plan.Len());
    if parallelism == 0 {
      return Err(InvalidInput);
    }
    var epoch := new RuntimeIterator<S>.Prepare(plan, load, parallelism, calm);
    var scheduling := epoch.ScheduleAvailable();
    if scheduling.Err? {
      return Err(scheduling.error);
    }
    r := Ok(epoch);
  }

  /**
   A whole epoch, for every plan and every order of completions: the samples form a prefix of the
   plan, and the epoch ends either with all of it or with exactly one error.
   */
  method Drain<S(0)>(epoch: RuntimeIterator<S>) returns (samples: seq<S>, error: Option<Error>)
    requires epoch.Valid() && !epoch.failed && epoch.delivered == []
    modifies epoch
    ensures epoch.Valid() && epoch.emitted == epoch.total
    ensures |samples| <= epoch.total
    ensures forall k :: 0 <= k < |samples| ==> epoch.load(Planned(epoch.whole, k)) == Ok(samples[k])
    ensures error.None? ==> |samples| == epoch.total
    ensures old(epoch.Faultless()) ==> error.None?
  {
    samples, error := [], None;
    while true
      invariant epoch.Valid() && samples == epoch.delivered
      invariant error.Some? <==> epoch.failed
      invariant old(epoch.Faultless()) ==> error.None? && epoch.Faultless()
      decreases epoch.total - epoch.emitted
    {
      var item := epoch.Next();
      match item {
        case End =>
          return;
        case Sample(value) =>
          samples := samples + [value];
        case Failed(e) =>
          error := Some(e);
      }
    }
  }
}
