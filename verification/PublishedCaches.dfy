/**
 The write pipeline with the real builder: what a normal run publishes can be read back, sample by sample.

 The pipeline's tokens stand for samples through `decode`; the builder's verdicts are those of
 `Storage.CacheBuilder`, and the theorem is about the cache the builder makes of a published source.
 */
module PublishedCaches {
  import opened Common
  import opened Records
  import opened SourceCommit
  import Pipeline
  import Storage

  /** The builder's settings, and the samples the tokens stand for. */
  datatype Workshop = Workshop(
    f: Foreign,
    compression: Compression,
    limit: u64,
    decode: nat -> Storage.Input,
    filesWritten: bool)
  {
    ghost predicate Valid() {
      f.KeysLawful() && limit > 0 && forall t :: |decode(t).data| <= U64_MAX
    }

    function Samples(tokens: seq<nat>): (r: seq<Storage.Input>)
      ensures |r| == |tokens| && forall i :: 0 <= i < |r| ==> r[i] == decode(tokens[i])
    {
      if tokens == [] then [] else Samples(tokens[..|tokens| - 1]) + [decode(tokens[|tokens| - 1])]
    }

    /** The builder after these samples, or nothing when one of them is refused. */
    ghost function TakenAll(tokens: seq<nat>): Option<Storage.Desk>
      requires Valid()
    {
      if tokens == [] then Some(Storage.Desk([], Storage.OpenShard(0, 0, 0)))
      else
        match TakenAll(tokens[..|tokens| - 1])
        case None => None
        case Some(desk) => Storage.Taken(f, compression, limit, desk, decode(tokens[|tokens| - 1]))
    }

    /** The rows these samples have under a schema; a sample that does not fit it has an empty one. */
    ghost function RowsUnder(schema: seq<Field>, tokens: seq<nat>): (r: seq<seq<Value>>)
      ensures |r| == |tokens|
      ensures forall i :: 0 <= i < |r| ==> r[i] == RowUnder(schema, tokens[i])
    {
      if tokens == [] then []
      else RowsUnder(schema, tokens[..|tokens| - 1]) + [RowUnder(schema, tokens[|tokens| - 1])]
    }

    ghost function RowUnder(schema: seq<Field>, token: nat): seq<Value> {
      match ObjectToRow(schema, decode(token).metadata)
      case None => []
      case Some(row) => row
    }

    /** When `finish` accepts what was taken. */
    ghost predicate Finishes(tokens: seq<nat>)
      requires Valid()
    {
      && TakenAll(tokens).Some? && tokens != [] && filesWritten
      && (forall i :: 0 <= i < |tokens| ==> decode(tokens[i]).metadata != map[])
      && Storage.Storable(f, RowsUnder(TakenAll(tokens).value.schema, tokens))
    }
  }

  /** The pipeline's verdicts are the builder's. */
  ghost predicate Uses(env: Env, w: Workshop) {
    && w.Valid()
    && (forall tokens, t :: w.TakenAll(tokens).Some? ==> (env.accepts(tokens, t) <==> w.TakenAll(tokens + [t]).Some?))
    && (forall tokens :: w.TakenAll(tokens).Some? ==> (env.finishes(tokens) <==> w.Finishes(tokens)))
  }

  /** A source whose samples the pipeline accepts is one that the builder takes in full. */
  lemma {:induction false} AcceptedIsTaken(env: Env, w: Workshop, tokens: seq<nat>)
    requires Uses(env, w)
    ensures AllAccepted(env, tokens) <==> w.TakenAll(tokens).Some?
    decreases |tokens|
  {
    if tokens != [] {
      var last := |tokens| - 1;
      AcceptedIsTaken(env, w, tokens[..last]);
      assert tokens == tokens[..last] + [tokens[last]];
    }
  }

  lemma {:induction false} TakenPrefix(w: Workshop, tokens: seq<nat>, k: nat)
    requires w.Valid() && k <= |tokens| && w.TakenAll(tokens[..k]).None?
    ensures w.TakenAll(tokens).None?
    decreases |tokens|
  {
    if k < |tokens| {
      assert tokens[..|tokens| - 1][..k] == tokens[..k];
      TakenPrefix(w, tokens[..|tokens| - 1], k);
    } else {
      assert tokens[..k] == tokens;
    }
  }

  /** The builder stands where the verdict function says, with these samples pushed. */
  ghost predicate Built(w: Workshop, b: Storage.CacheBuilder, tokens: seq<nat>)
    reads b
  {
    && w.Valid() && b.Valid() && b.f == w.f && b.compression == w.compression && b.maxShardBytes == w.limit
    && b.pushed == w.Samples(tokens) && w.TakenAll(tokens) == Some(Storage.Desk(b.schema, b.current))
  }

  /** One push, judged by the builder as by the verdict function. */
  method PushOne(w: Workshop, b: Storage.CacheBuilder, ghost tokens: seq<nat>, t: nat) returns (r: Result<()>)
    requires Built(w, b, tokens)
    modifies b
    ensures r.Ok? ==> Built(w, b, tokens + [t])
    ensures r.Err? ==> w.TakenAll(tokens + [t]).None?
  {
    assert (tokens + [t])[..|tokens|] == tokens;
    var input := w.decode(t);
    b.AcceptsIsTaken(input);
    ghost var desk := Storage.Desk(b.schema, b.current);
    r := b.PushSample(input.data, input.metadata);
    if r.Ok? {
      Storage.TakenWhen(w.f, w.compression, w.limit, desk, input, b.records[|b.records| - 1],
                        Storage.Desk(b.schema, b.current));
    }
  }

  lemma LabelledRow(f: Foreign, c: Compression, schema: seq<Field>, row: seq<Value>, input: Storage.Input, e: Encoded)
    requires Storage.EncodedFrom(f, c, schema, row, input, e) && input.metadata != map[]
    ensures ObjectToRow(schema, input.metadata) == Some(row)
  {
    assert |input.metadata| != 0;
  }

  /** Once every sample has metadata, the stored rows are the rows under the schema. */
  lemma RowsAgree(
    w: Workshop, tokens: seq<nat>, schema: seq<Field>, rows: seq<seq<Value>>, pushed: seq<Storage.Input>,
    records: seq<Encoded>)
    requires Storage.ContentValid(w.f, w.compression, schema, rows, pushed, records) && pushed == w.Samples(tokens)
    requires AllLabelled(pushed)
    ensures rows == w.RowsUnder(schema, tokens)
  {
    forall i | 0 <= i < |tokens|
      ensures rows[i] == w.RowUnder(schema, tokens[i])
    {
      LabelledRow(w.f, w.compression, schema, rows[i], pushed[i], records[i]);
    }
  }

  /** The builder run over a source: it succeeds exactly by the verdicts, and the cache holds the samples. */
  method Build(w: Workshop, tokens: seq<nat>) returns (r: Result<Storage.Cache>)
    requires w.Valid()
    ensures r.Ok? <==> w.Finishes(tokens)
    ensures r.Ok? ==> Storage.Holds(w.f, r.value, w.Samples(tokens), w.limit)
  {
    var b := new Storage.CacheBuilder(w.f, w.compression, w.limit);
    var pushed := PushAll(w, b, tokens);
    match pushed
    case Err(error) => r := Err(error);
    case Ok(_) => r := FinishBuilt(w, b, tokens);
  }

  method PushAll(w: Workshop, b: Storage.CacheBuilder, tokens: seq<nat>) returns (r: Result<()>)
    requires Built(w, b, [])
    modifies b
    ensures r.Ok? ==> Built(w, b, tokens)
    ensures r.Err? ==> w.TakenAll(tokens).None?
  {
    r := Ok(());
    var k := 0;
    while k < |tokens|
      invariant k <= |tokens| && Built(w, b, tokens[..k])
    {
      assert tokens[..k + 1] == tokens[..k] + [tokens[k]];
      r := PushOne(w, b, tokens[..k], tokens[k]);
      if r.Err? {
        TakenPrefix(w, tokens, k + 1);
        return;
      }
      k := k + 1;
    }
    assert tokens[..|tokens|] == tokens;
    r := Ok(());
  }

  ghost predicate AllLabelled(samples: seq<Storage.Input>) {
    forall i :: 0 <= i < |samples| ==> samples[i].metadata != map[]
  }

  lemma FinishesWhen(w: Workshop, b: Storage.CacheBuilder, tokens: seq<nat>)
    requires Built(w, b, tokens)
    ensures w.Finishes(tokens) <==>
      b.pushed != [] && w.filesWritten && Storage.Storable(w.f, b.metadataRows) && AllLabelled(b.pushed)
  {
    assert |b.pushed| == |tokens|;
    assert AllLabelled(b.pushed) <==> forall i :: 0 <= i < |tokens| ==> w.decode(tokens[i]).metadata != map[];
    if AllLabelled(b.pushed) {
      RowsAgree(w, tokens, b.schema, b.metadataRows, b.pushed, b.records);
    }
  }

  method FinishBuilt(w: Workshop, b: Storage.CacheBuilder, ghost tokens: seq<nat>) returns (r: Result<Storage.Cache>)
    requires Built(w, b, tokens)
    ensures r.Ok? <==> w.Finishes(tokens)
    ensures r.Ok? ==> Storage.Holds(w.f, r.value, w.Samples(tokens), w.limit)
  {
    FinishesWhen(w, b, tokens);
    r := b.Finish(w.filesWritten);
  }

  /** What reading a sample of a cache gives, as the pair that was pushed. */
  ghost predicate Reads(w: Workshop, cache: Storage.Cache, i: nat, input: Storage.Input) {
    forall validate ::
      var read := Storage.ReadSample(w.f, cache, i, validate);
      && read.Ok? && read.value.0 == input.data && |read.value.1| == |cache.schema|
      && RowToObject(cache.schema, read.value.1) == input.metadata
  }

  lemma HeldReads(w: Workshop, cache: Storage.Cache, samples: seq<Storage.Input>, i: nat)
    requires Storage.Holds(w.f, cache, samples, w.limit) && w.f.CodecLawful() && i < |samples|
    requires |samples| * INDEX_ROW_BYTES <= U64_MAX && w.f.JsonSafe(samples[i].metadata)
    ensures Reads(w, cache, i, samples[i])
  {
    Storage.ReadRoundTrip(w.f, cache, samples, w.limit, i, false);
    Storage.ReadRoundTrip(w.f, cache, samples, w.limit, i, true);
  }

  /**
   From sources to readable caches: after a normal run, a source that succeeded in it has its complete cache
   at its path, and the cache the builder makes of it gives back every sample of the source, in order.
   */
  method WriteThenRead(env: Env, disk: Disk, parallelism: nat, signal: nat -> bool, again: bool, w: Workshop, j: nat)
    returns (r: Result<seq<Record>>, after: Disk, cache: Result<Storage.Cache>)
    requires parallelism > 0 && env.UniqueNames() && Uses(env, w) && w.f.CodecLawful()
    requires j < |env.sources| && Begins(env, j, disk) && |env.sources[j].samples| * INDEX_ROW_BYTES <= U64_MAX
    requires forall t :: w.f.JsonSafe(w.decode(t).metadata)
    ensures r.Ok? ==> |r.value| == |env.sources|
    ensures r.Ok? && r.value[j].Success? ==>
      && Final(env.sources[j].name.value) in after
      && after[Final(env.sources[j].name.value)] == Complete(env.sources[j].samples)
      && cache.Ok?
      && forall i :: 0 <= i < |env.sources[j].samples| ==> Reads(w, cache.value, i, w.decode(env.sources[j].samples[i]))
  {
    var tokens := env.sources[j].samples;
    ghost var p;
    r, after, p := Pipeline.WriteSourceList(env, disk, parallelism, signal, again);
    cache := Build(w, tokens);
    if r.Ok? && r.value[j].Success? {
      FinalPaths(env, disk, |env.sources|, j);
      AcceptedIsTaken(env, w, tokens);
      forall i | 0 <= i < |tokens|
        ensures Reads(w, cache.value, i, w.decode(tokens[i]))
      {
        HeldReads(w, cache.value, w.Samples(tokens), i);
      }
    }
  }
}
