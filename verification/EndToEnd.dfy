/**
 From pushed samples to delivered ones: the builder's caches, the read path, the physical index space and
 the epoch iterator put together.
 */
module EndToEnd {
  import opened Common
  import opened Epochs
  import opened Identities
  import opened Loader
  import opened PrefixOffsets
  import opened Records
  import opened Runtime
  import Storage

  /** A dataset's finished caches with its tables, and what was pushed into each cache. */
  datatype Shelf = Shelf(
    f: Foreign,
    stores: seq<Storage.Cache>,
    caches: seq<Cache>,
    offsets: seq<nat>,
    pushed: seq<seq<Storage.Input>>,
    limits: seq<nat>,
    validate: bool)
  {
    /** Cache `k` was finished after its pushes, and its metadata survives JSON. */
    ghost predicate HoldsCache(k: nat)
      requires k < |stores| == |caches| == |pushed| == |limits|
    {
      && Storage.Holds(f, stores[k], pushed[k], limits[k])
      && caches[k].samples == |pushed[k]| && |pushed[k]| * INDEX_ROW_BYTES <= U64_MAX
      && forall i :: 0 <= i < |pushed[k]| ==> f.JsonSafe(pushed[k][i].metadata)
    }

    ghost predicate Valid() {
      && f.CodecLawful()
      && |stores| == |caches| == |pushed| == |limits|
      && AreOffsets(Counts(caches), offsets)
      && forall k :: 0 <= k < |stores| ==> HoldsCache(k)
    }
  }

  /** `load_planned_sample`: locate the physical sample, then read and decode it. */
  ghost function Load(shelf: Shelf, x: nat): Result<Storage.Input>
    requires shelf.Valid()
  {
    match LocatePhysical(shelf.caches, shelf.offsets, x)
    case Err(e) => Err(e)
    case Ok((k, i)) =>
      if k >= |shelf.stores| then Err(InvalidCache)
      else
        match Storage.ReadSample(shelf.f, shelf.stores[k], i, shelf.validate)
        case Err(e) => Err(e)
        case Ok((data, row)) =>
          if |row| != |shelf.stores[k].schema| then Err(InvalidCache)
          else Ok(Storage.Input(data, RowToObject(shelf.stores[k].schema, row)))
  }

  lemma ReadsPushed(shelf: Shelf, k: nat, i: nat)
    requires shelf.Valid() && k < |shelf.stores| && i < |shelf.pushed[k]|
    ensures var read := Storage.ReadSample(shelf.f, shelf.stores[k], i, shelf.validate);
            && read.Ok? && |read.value.1| == |shelf.stores[k].schema|
            && Storage.Input(read.value.0, RowToObject(shelf.stores[k].schema, read.value.1)) == shelf.pushed[k][i]
  {
    assert shelf.HoldsCache(k);
    Storage.ReadRoundTrip(shelf.f, shelf.stores[k], shelf.pushed[k], shelf.limits[k], i, shelf.validate);
  }

  lemma SameSizes(shelf: Shelf)
    requires shelf.Valid()
    ensures Counts(shelf.caches) == Sizes(shelf.pushed)
  {
    forall k | 0 <= k < |shelf.caches|
      ensures Counts(shelf.caches)[k] == Sizes(shelf.pushed)[k]
    {
      assert shelf.HoldsCache(k);
    }
  }

  /** A physical index below the total loads the sample at that place among all that were pushed. */
  lemma LoadsPushed(shelf: Shelf, x: nat)
    requires shelf.Valid() && x < |Flat(shelf.pushed)|
    ensures Load(shelf, x) == Ok(Flat(shelf.pushed)[x])
  {
    SameSizes(shelf);
    FlatLength(shelf.pushed);
    var place := Locate(Counts(shelf.caches), shelf.offsets, x).value;
    FlatAt(shelf.pushed, place.0, place.1);
    ReadsPushed(shelf, place.0, place.1);
  }

  /** Every row of the plan is a physical index of the dataset. */
  ghost predicate PlanWithin(plan: EpochPlan, total: nat) {
    PlanValid(plan) && forall k :: 0 <= k < plan.Len() ==> Planned(plan, k) < total
  }

  lemma PlannedLoads(shelf: Shelf, load: nat -> Result<Storage.Input>, plan: EpochPlan, k: nat)
    requires shelf.Valid() && PlanWithin(plan, |Flat(shelf.pushed)|) && k < plan.Len()
    requires forall x :: 0 <= x < |Flat(shelf.pushed)| ==> load(x) == Load(shelf, x)
    ensures load(Planned(plan, k)) == Ok(Flat(shelf.pushed)[Planned(plan, k)])
  {
    LoadsPushed(shelf, Planned(plan, k));
  }

  /**
   An epoch over finished caches: for every plan, every order of completions and both record layouts, the
   samples handed out are the pushed ones that the plan names, in its order; and all of them, unless a job
   is refused or a file cannot be read.
   */
  method DrainEpoch(
    ghost shelf: Shelf, load: nat -> Result<Storage.Input>, plan: EpochPlan, prefetch: nat, workers: nat, calm: bool)
    returns (samples: seq<Storage.Input>, error: Option<Error>)
    requires shelf.Valid() && PlanWithin(plan, |Flat(shelf.pushed)|) && plan.Len() > 0 && prefetch > 0 && workers > 0
    requires forall x :: 0 <= x < |Flat(shelf.pushed)| ==> load(x) == Load(shelf, x)
    ensures |samples| <= plan.Len() && (error.None? ==> |samples| == plan.Len())
    ensures forall k :: 0 <= k < |samples| ==> samples[k] == Flat(shelf.pushed)[Planned(plan, k)]
    ensures calm ==> error.None?
  {
    forall k | 0 <= k < plan.Len()
      ensures load(Planned(plan, k)) == Ok(Flat(shelf.pushed)[Planned(plan, k)])
    {
      PlannedLoads(shelf, load, plan, k);
    }
    var started := Start(plan, load, prefetch, workers, calm);
    match started
    case Err(e) => samples, error := [], Some(e);
    case Ok(epoch) => samples, error := Drain(epoch);
  }

  /** Active rows are physical indices of the dataset, as the identity lookup gives them. */
  ghost predicate ActiveWithin(active: Active, total: nat) {
    active.Table? ==> forall k :: 0 <= k < |active.rows| ==> active.rows[k] < total
  }

  lemma StreamWithin(active: Active, total: nat, shuffle: bool, pick: nat -> nat, i: nat)
    requires 0 < PopulationOf(active, total) && ActiveWithin(active, total)
    requires forall d: nat :: pick(d) < PopulationOf(active, total)
    ensures StreamRow(active, PopulationOf(active, total), shuffle, pick, i) < total
  {
  }

  /** A loader over finished caches in a calm run is readable, so its quiet passes succeed. */
  lemma ShelfIsReadable(shelf: Shelf, adapter: ReaderAdapter<Storage.Input>)
    requires shelf.Valid() && adapter.Valid() && adapter.calm
    requires adapter.dataset.totalSamples == |Flat(shelf.pushed)|
    requires ActiveWithin(adapter.dataset.active, adapter.dataset.totalSamples)
    requires forall x :: 0 <= x < |Flat(shelf.pushed)| ==> adapter.load(x) == Load(shelf, x)
    ensures adapter.Readable()
  {
    var d := adapter.dataset;
    var n := PopulationOf(d.active, d.totalSamples);
    forall i: nat
      ensures adapter.load(StreamRow(d.active, n, d.shuffle, d.pick(n), i)).Ok?
    {
      StreamWithin(d.active, d.totalSamples, d.shuffle, d.pick(n), i);
      LoadsPushed(shelf, StreamRow(d.active, n, d.shuffle, d.pick(n), i));
    }
  }
}
