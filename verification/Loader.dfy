/**
 One loading worker's adapter: it takes its samples from the dataset's iterators, keeps an unfinished
 iterator between passes, and opens a new one when the old one is over.

 An iterator ends by itself, by a read error, or by a refused start; what is left of its window is then
 lost. A transformation that raises loses the one sample it was given. `fates` records this for every
 position of the dataset's stream that has been used up.
 */
module Loader {
  import opened Common
  import opened Epochs
  import opened Runtime

  /** A Python generator over a native iterator: not started, suspended, or over. */
  datatype Stream<S(0)> = Unopened | Opened(source: RuntimeIterator<S>) | Over

  /** The rows whose fate was to be yielded. */
  ghost function Kept(rows: seq<nat>, fates: seq<bool>): (r: seq<nat>)
    requires |fates| <= |rows|
  {
    if fates == [] then []
    else
      var last := |fates| - 1;
      Kept(rows, fates[..last]) + if fates[last] then [rows[last]] else []
  }

  ghost predicate NothingLost(fates: seq<bool>) { forall k :: 0 <= k < |fates| ==> fates[k] }

  /** Rows come out as one uninterrupted run exactly when nothing was lost. */
  lemma {:induction false} KeptWhole(rows: seq<nat>, fates: seq<bool>)
    requires |fates| <= |rows|
    ensures |Kept(rows, fates)| <= |fates|
    ensures NothingLost(fates) <==> |Kept(rows, fates)| == |fates|
    ensures NothingLost(fates) ==> Kept(rows, fates) == rows[..|fates|]
    decreases |fates|
  {
    if fates != [] {
      var last := |fates| - 1;
      KeptWhole(rows, fates[..last]);
      assert NothingLost(fates) <==> NothingLost(fates[..last]) && fates[last];
      assert rows[..|fates|] == rows[..last] + [rows[last]];
    }
  }

  lemma {:induction false} KeptExtends(rows: seq<nat>, more: seq<nat>, fates: seq<bool>)
    requires |fates| <= |rows|
    ensures Kept(rows + more, fates) == Kept(rows, fates)
    decreases |fates|
  {
    if fates != [] {
      KeptExtends(rows, more, fates[..|fates| - 1]);
    }
  }

  lemma KeptOne(rows: seq<nat>, fates: seq<bool>, fate: bool)
    requires |fates| < |rows|
    ensures Kept(rows, fates + [fate]) == Kept(rows, fates) + if fate then [rows[|fates|]] else []
  {
    assert (fates + [fate])[..|fates|] == fates;
  }

  function Losses(n: nat): (r: seq<bool>)
    ensures |r| == n && forall k :: 0 <= k < n ==> !r[k]
  {
    seq(n, _ => false)
  }

  lemma {:induction false} KeptLosses(rows: seq<nat>, fates: seq<bool>, n: nat)
    requires |fates| + n <= |rows|
    ensures Kept(rows, fates + Losses(n)) == Kept(rows, fates)
    decreases n
  {
    if n == 0 {
      assert fates + Losses(0) == fates;
    } else {
      KeptLosses(rows, fates, n - 1);
      KeptOne(rows, fates + Losses(n - 1), false);
      assert fates + Losses(n) == fates + Losses(n - 1) + [false];
    }
  }

  /** The remaining rows of an iterator's window. */
  ghost function Remaining<S(0)>(source: RuntimeIterator<S>): (r: seq<nat>)
    reads source
    requires source.Valid() && !source.failed
    ensures |r| == source.total - source.emitted
  {
    Window(source.whole)[source.emitted..]
  }

  class ReaderAdapter<S(0)> {
    const dataset: DatasetState
    const load: nat -> Result<S>
    const raises: nat -> bool
    const prefetch: nat
    const workers: nat
    const calm: bool
    var stream: Stream<S>
    var position: nat
    ghost var fates: seq<bool>
    ghost var yielded: seq<nat>
    ghost var failures: nat

    /** The stream fits the end of what the dataset has covered. */
    ghost predicate StreamValid()
      reads this`stream, this`fates, dataset, if stream.Opened? then {stream.source} else {}
    {
      match stream
      case Opened(source) =>
        && source.Valid() && !source.failed && source.load == load && source.calm == calm
        && |fates| + (source.total - source.emitted) == |dataset.covered|
        && Remaining(source) == dataset.covered[|fates|..]
      case _ => |fates| == |dataset.covered|
    }

    ghost predicate Valid()
      reads this, dataset, if stream.Opened? then {stream.source} else {}
    {
      && dataset.Valid() && StreamValid() && prefetch > 0 && workers > 0
      && position == |fates| <= |dataset.covered|
      && yielded == Kept(dataset.covered, fates)
      && (failures == 0 <==> NothingLost(fates))
    }

    /** Rows the open window still has to give. */
    ghost function Rest(): seq<nat>
      reads this`fates, dataset
      requires |fates| <= |dataset.covered|
    {
      dataset.covered[|fates|..]
    }

    /** `setup`: a generator is made, but no window is opened before its first sample is asked for. */
    constructor (
      dataset: DatasetState, load: nat -> Result<S>, raises: nat -> bool, prefetch: nat, workers: nat, calm: bool)
      requires dataset.Valid() && dataset.covered == [] && prefetch > 0 && workers > 0
      ensures Valid() && this.dataset == dataset && this.load == load && this.raises == raises && this.calm == calm
      ensures stream.Unopened? && fates == [] && yielded == [] && failures == 0 && fresh(this)
    {
      this.dataset, this.load, this.raises, this.prefetch, this.workers, this.calm :=
        dataset, load, raises, prefetch, workers, calm;
      stream, position, fates, yielded, failures := Unopened, 0, [], [], 0;
    }

    /** Passes yield one uninterrupted stream exactly when none of them ended in a read or transform error. */
    lemma Uninterrupted()
      requires Valid()
      ensures failures == 0 <==> yielded + Rest() == dataset.covered
    {
      KeptWhole(dataset.covered, fates);
      assert dataset.covered == dataset.covered[..|fates|] + Rest();
      assert |yielded + Rest()| == |yielded| + |dataset.covered| - |fates|;
    }

    /** When the dataset itself refuses to plan another window. */
    ghost predicate PlanRefused()
      reads dataset
    {
      && dataset.shuffle
      && (dataset.shuffledDrawOffset + dataset.epochLen > U64_MAX
          || (dataset.active.Table? && !dataset.active.weightsValid))
    }

    /** Nothing goes wrong outside: jobs are taken, samples can be read, no transformation raises. */
    ghost predicate Quiet()
      reads dataset`active
    {
      Readable() && (forall p :: !raises(p))
    }

    /** The pool takes every job, and every row of the dataset's stream can be read. */
    ghost predicate Readable()
      reads dataset`active
    {
      var n := PopulationOf(dataset.active, dataset.totalSamples);
      && calm && n > 0
      && forall i: nat :: load(StreamRow(dataset.active, n, dataset.shuffle, dataset.pick(n), i)).Ok?
    }

    /** Then the open iterator cannot fail. */
    lemma ReadableIsFaultless(source: RuntimeIterator<S>)
      requires Valid() && stream == Opened(source) && Readable()
      ensures source.Faultless()
    {
      var n := PopulationOf(dataset.active, dataset.totalSamples);
      forall k | source.emitted <= k < source.total
        ensures load(Planned(source.whole, k)).Ok?
      {
        var i := |fates| + k - source.emitted;
        assert Planned(source.whole, k) == Remaining(source)[k - source.emitted] == dataset.covered[i];
        assert dataset.covered[i] == StreamRow(dataset.active, n, dataset.shuffle, dataset.pick(n), i);
      }
    }

    /** The next `n` positions are lost, and the stream is over. */
    method Lose(n: nat)
      requires dataset.Valid() && prefetch > 0 && workers > 0 && n > 0
      requires position == |fates| && |fates| + n == |dataset.covered| && yielded == Kept(dataset.covered, fates)
      modifies this`stream, this`position, this`fates, this`failures
      ensures Valid() && stream.Over? && failures == old(failures) + 1
    {
      KeptLosses(dataset.covered, fates, n);
      assert (fates + Losses(n))[|fates|] == false;
      stream, position, fates, failures := Over, position + n, fates + Losses(n), failures + 1;
    }

    /** The first sample asked of a new generator opens the window. */
    method OpenStream() returns (r: Result<()>)
      requires Valid() && stream.Unopened?
      modifies this, dataset
      ensures Valid() && dataset.active == old(dataset.active) && dataset.epochLen == old(dataset.epochLen)
      ensures yielded == old(yielded) && old(dataset.covered) <= dataset.covered
      ensures r.Ok? ==> stream.Opened? && fresh(stream.source) && stream.source.emitted < stream.source.total
      ensures r.Ok? ==> failures == old(failures) && fates == old(fates) && |Rest()| == dataset.epochLen
      ensures r.Err? ==> stream.Over?
      ensures r.Err? ==> failures == old(failures) + 1 || (PlanRefused() && failures == old(failures))
      ensures calm && !old(PlanRefused()) ==> r.Ok?
    {
      var plan := dataset.EpochPlan();
      match plan
      case Err(error) =>
        stream := Over;
        r := Err(error);
      case Ok(window) =>
        KeptExtends(old(dataset.covered), Window(window), fates);
        var started := Start(window, load, prefetch, workers, calm);
        match started
        case Err(error) =>
          Lose(window.Len());
          r := Err(error);
        case Ok(source) =>
          assert Remaining(source) == Window(window);
          stream := Opened(source);
          r := Ok(());
    }

    /** A sample arrived: it is yielded, unless its transformation raises, which loses this one only. */
    method Deliver(ghost row: nat) returns (ok: bool)
      requires dataset.Valid() && prefetch > 0 && workers > 0
      requires position == |fates| < |dataset.covered| && row == dataset.covered[|fates|]
      requires yielded == Kept(dataset.covered, fates) && (failures == 0 <==> NothingLost(fates))
      modifies this`position, this`fates, this`yielded, this`failures
      ensures position == |fates| && fates == old(fates) + [ok] && ok == !raises(old(position))
      ensures yielded == Kept(dataset.covered, fates) && (failures == 0 <==> NothingLost(fates))
      ensures yielded == old(yielded) + (if ok then [row] else [])
      ensures failures == old(failures) + if ok then 0 else 1
    {
      ok := !raises(position);
      KeptOne(dataset.covered, fates, ok);
      assert (fates + [ok])[..|fates|] == fates && (fates + [ok])[|fates|] == ok;
      yielded := yielded + if ok then [row] else [];
      position, fates, failures := position + 1, fates + [ok], if ok then failures else failures + 1;
    }

    /** `next` on a suspended generator. */
    method Advance(source: RuntimeIterator<S>) returns (r: Item<S>)
      requires Valid() && stream == Opened(source)
      modifies this, source
      ensures Valid() && (stream.Over? || stream == Opened(source))
      ensures r.End? <==> old(source.emitted) == source.total
      ensures r.End? ==> stream.Over? && fates == old(fates)
      ensures r.Sample? ==> |fates| == |old(fates)| + 1
      ensures !r.Sample? ==> yielded == old(yielded)
      ensures r.Sample? ==> exists row :: yielded == old(yielded) + [row] && load(row) == Ok(r.value)
      ensures failures == old(failures) + if r.Failed? then 1 else 0
      ensures Readable() && !r.End? ==> fates == old(fates) + [!raises(old(position))]
      ensures Readable() && !r.End? ==> (r.Sample? <==> !raises(old(position)))
    {
      var left := source.total - source.emitted;
      ghost var rest, at := Remaining(source), source.emitted;
      if Readable() {
        ReadableIsFaultless(source);
      }
      r := source.Next();
      match r
      case End => stream := Over;
      case Failed(_) => Lose(left);
      case Sample(value) =>
        ghost var row := rest[0];
        assert row == Planned(source.whole, at) && load(row) == Ok(value);
        assert Remaining(source) == rest[1..];
        var ok := Deliver(row);
        if !ok {
          r := Failed(InvalidInput);
        }
    }

    /** `next(state.stream)`. */
    method NextSample() returns (r: Item<S>)
      requires Valid()
      modifies this, dataset, if stream.Opened? then {stream.source} else {}
      ensures Valid() && dataset.active == old(dataset.active) && dataset.epochLen == old(dataset.epochLen)
      ensures stream.Opened? ==> stream == old(stream) || fresh(stream.source)
      ensures old(dataset.covered) <= dataset.covered
      ensures !old(stream.Unopened?) ==> unchanged(dataset)
      ensures r.End? ==> !old(stream.Unopened?) && stream.Over? && old(|Rest()|) == 0
      ensures r.End? ==> failures == old(failures) && fates == old(fates)
      ensures !r.Sample? ==> yielded == old(yielded)
      ensures r.Sample? ==> failures == old(failures)
      ensures r.Sample? ==> exists row :: yielded == old(yielded) + [row] && load(row) == Ok(r.value)
      ensures r.Sample? ==> |Rest()| == (if old(stream.Unopened?) then dataset.epochLen else old(|Rest()|)) - 1
      ensures r.Failed? ==> failures == old(failures) + 1 || (PlanRefused() && failures == old(failures))
      ensures Readable() && !r.End? && !(old(stream.Unopened?) && old(PlanRefused())) ==>
        fates == old(fates) + [!raises(old(position))] && (r.Sample? <==> !raises(old(position)))
    {
      if stream.Unopened? {
        var begun := OpenStream();
        if begun.Err? {
          return Failed(begun.error);
        }
      }
      if stream.Over? {
        return End;
      }
      r := Advance(stream.source);
    }

    /** One turn of the pass: an iterator that is over is replaced by a new one, which has a sample to give. */
    method Step() returns (r: Item<S>)
      requires Valid()
      modifies this, dataset, if stream.Opened? then {stream.source} else {}
      ensures Valid() && dataset.active == old(dataset.active) && dataset.epochLen == old(dataset.epochLen)
      ensures stream.Opened? ==> stream == old(stream) || fresh(stream.source)
      ensures old(dataset.covered) <= dataset.covered && !r.End?
      ensures !r.Sample? ==> yielded == old(yielded)
      ensures r.Sample? ==> failures == old(failures)
      ensures r.Sample? ==> exists row :: yielded == old(yielded) + [row] && load(row) == Ok(r.value)
      ensures old(|Rest()|) > 0 ==> unchanged(dataset)
      ensures r.Sample? ==> |Rest()| == (if old(|Rest()|) > 0 then old(|Rest()|) else dataset.epochLen) - 1
      ensures r.Failed? ==> failures == old(failures) + 1 || (PlanRefused() && failures == old(failures))
      ensures Readable() && (old(|Rest()|) > 0 || !old(PlanRefused())) ==>
        fates == old(fates) + [!raises(old(position))] && (r.Sample? <==> !raises(old(position)))
    {
      r := NextSample();
      if r.End? {
        stream := Unopened;
        r := NextSample();
      }
    }

    /** Where everything can be read, the transformation alone decides the fate of the next position. */
    method Turn()
      requires Valid() && Readable() && !dataset.shuffle
      modifies this, dataset, if stream.Opened? then {stream.source} else {}
      ensures Valid() && fates == old(fates) + [!raises(old(|fates|))] && dataset.active == old(dataset.active)
      ensures stream.Opened? ==> stream == old(stream) || fresh(stream.source)
    {
      var _ := Step();
    }

    /** Two turns from the start, the first of them spoilt by its transformation. */
    method TwoTurns()
      requires Valid() && Readable() && !dataset.shuffle && fates == [] && stream.Unopened? && raises(0) && !raises(1)
      modifies this, dataset
      ensures Valid() && fates == [false, true] && dataset.active == old(dataset.active)
    {
      Turn();
      assert fates == [false];
      Turn();
    }

    /** The rows of these samples, in order. */
    ghost predicate Loads(rows: seq<nat>, samples: seq<S>) {
      |rows| == |samples| && forall k :: 0 <= k < |rows| ==> load(rows[k]) == Ok(samples[k])
    }

    /** One sample for the consumer. */
    method TakeOne() returns (r: Result<S>, ghost row: nat)
      requires Valid()
      modifies this, dataset, if stream.Opened? then {stream.source} else {}
      ensures Valid() && dataset.active == old(dataset.active) && dataset.epochLen == old(dataset.epochLen)
      ensures stream.Opened? ==> stream == old(stream) || fresh(stream.source)
      ensures old(dataset.covered) <= dataset.covered
      ensures r.Ok? ==> failures == old(failures) && yielded == old(yielded) + [row] && load(row) == r
      ensures r.Ok? && old(|Rest()|) > 0 ==> |Rest()| == old(|Rest()|) - 1 && PlanRefused() == old(PlanRefused())
      ensures r.Ok? && old(|Rest()|) == 0 ==> |Rest()| == dataset.epochLen - 1
      ensures r.Err? ==> yielded == old(yielded)
      ensures r.Err? ==> failures == old(failures) + 1 || (PlanRefused() && failures == old(failures))
      ensures Quiet() && (old(|Rest()|) > 0 || !old(PlanRefused())) ==> r.Ok?
    {
      row := 0;
      var item := Step();
      match item
      case Failed(error) => r := Err(error);
      case End => r := Err(WorkerFailed);
      case Sample(value) =>
        row :| yielded == old(yielded) + [row] && load(row) == Ok(value);
        r := Ok(value);
    }

    lemma LoadsMore(rows: seq<nat>, samples: seq<S>, row: nat, sample: S)
      requires Loads(rows, samples) && load(row) == Ok(sample)
      ensures Loads(rows + [row], samples + [sample])
    {
    }

    /**
     One pass over the worker's quota, which the consumer may abandon after any number of samples. It fails
     only by a read or transform error, which is counted, or because the dataset refuses another window;
     and a quiet pass whose window is not refused does not fail.
     */
    method Pass(taken: nat) returns (samples: seq<S>, r: Result<()>, ghost rows: seq<nat>)
      requires Valid() && taken <= dataset.epochLen
      modifies this, dataset, if stream.Opened? then {stream.source} else {}
      ensures Valid() && dataset.active == old(dataset.active) && dataset.epochLen == old(dataset.epochLen)
      ensures stream.Opened? ==> stream == old(stream) || fresh(stream.source)
      ensures old(dataset.covered) <= dataset.covered
      ensures Loads(rows, samples) && yielded == old(yielded) + rows
      ensures r.Ok? ==> |samples| == taken && failures == old(failures)
      ensures r.Err? ==> |samples| < taken
      ensures r.Err? ==> failures == old(failures) + 1 || (PlanRefused() && failures == old(failures))
      ensures Quiet() && !old(PlanRefused()) ==> r.Ok?
    {
      samples, rows := [], [];
      while |samples| < taken
        invariant Valid() && dataset.active == old(dataset.active) && dataset.epochLen == old(dataset.epochLen)
        invariant stream.Opened? ==> stream == old(stream) || fresh(stream.source)
        invariant old(dataset.covered) <= dataset.covered
        invariant Loads(rows, samples) && yielded == old(yielded) + rows && |samples| <= taken
        invariant failures == old(failures)
        invariant !old(PlanRefused()) ==> !PlanRefused() || |Rest()| >= taken - |samples|
        decreases taken - |samples|
      {
        var sample;
        ghost var row;
        sample, row := TakeOne();
        match sample
        case Err(error) => return samples, Err(error), rows;
        case Ok(value) =>
          LoadsMore(rows, samples, row, value);
          samples, rows := samples + [value], rows + [row];
      }
      r := Ok(());
    }
  }

  /**
   "Passes yield one uninterrupted stream" fails once a transformation raises: over two rows, an error on
   the first sample makes the second turn yield row 1, with row 0 gone.
   */
  method LostSample<S(0)>(load: nat -> Result<S>, pick: nat -> nat -> nat) returns (adapter: ReaderAdapter<S>)
    requires load(0).Ok? && load(1).Ok? && (forall n: nat, d: nat :: n > 0 ==> pick(n)(d) < n)
    ensures adapter.Valid() && |adapter.dataset.covered| >= 2
    ensures adapter.dataset.covered[..2] == [0, 1] && adapter.yielded == [1]
  {
    var dataset := new DatasetState(2, false, pick);
    adapter := new ReaderAdapter(dataset, load, p => p == 0, 1, 1, true);
    assert forall i: nat :: StreamRow(Full, 2, false, pick(2), i) in {0, 1};
    adapter.TwoTurns();
    assert IsStream(Full, 2, false, pick(2), dataset.covered);
    FirstRows(pick(2), dataset.covered);
    LostRow(dataset.covered, adapter.fates);
  }

  lemma LostRow(rows: seq<nat>, fates: seq<bool>)
    requires |rows| >= 2 && fates == [false, true]
    ensures Kept(rows, fates) == [rows[1]]
  {
    var none: seq<bool> := [];
    var one := none + [false];
    assert fates == one + [true];
    KeptOne(rows, none, false);
    KeptOne(rows, one, true);
  }

  lemma FirstRows(pick: nat -> nat, rows: seq<nat>)
    requires |rows| >= 2 && IsStream(Full, 2, false, pick, rows)
    ensures rows[..2] == [0, 1]
  {
    assert rows[0] == StreamRow(Full, 2, false, pick, 0) && rows[1] == StreamRow(Full, 2, false, pick, 1);
  }
}
