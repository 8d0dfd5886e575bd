/** The append-only cache builder, the finished cache, and the reader that must return what was pushed. */
module Storage {
  import opened Common
  import opened Records
  import MetadataBatches

  datatype Input = Input(data: bytes, metadata: Object)

  datatype ShardManifest = ShardManifest(byteLen: u64, uncompressed: u64)

  datatype OpenShard = OpenShard(id: u64, byteLen: u64, uncompressed: u64)

  /** A published cache: manifest fields, the index file and the shard files. */
  datatype Cache = Cache(
    compression: Compression,
    schema: seq<Field>,
    shards: seq<ShardManifest>,
    sampleCount: nat,
    indexFile: bytes,
    files: seq<bytes>,
    metadataRows: seq<seq<Value>>)

  // ---------------------------------------------------------------- shard tiling

  ghost predicate InShard(e: IndexEntry, files: seq<bytes>) {
    e.shardId < |files| && e.byteLen > 0 && e.offset + e.byteLen <= |files[e.shardId]|
  }

  /**
   The next record starts where this one ends, or opens the next shard; it does that only when this record ends
   its shard and the next one would have taken the shard over the limit.
   */
  ghost predicate Follows(e: IndexEntry, next: IndexEntry, files: seq<bytes>, limit: nat) {
    || (next.shardId == e.shardId && next.offset == e.offset + e.byteLen)
    || (next.shardId == e.shardId + 1 && next.offset == 0 && e.shardId < |files|
        && e.offset + e.byteLen == |files[e.shardId]| && |files[e.shardId]| + next.byteLen > limit)
  }

  /** A shard larger than the limit holds exactly one record. */
  ghost predicate WithinLimit(e: IndexEntry, files: seq<bytes>, limit: nat) {
    e.shardId < |files| && |files[e.shardId]| > limit ==> e.offset == 0 && e.byteLen == |files[e.shardId]|
  }

  /**
   Index entries tile the shards: the first record opens shard 0, each record follows the one before
   it, and the last one ends the last shard. No shard that was ever written to is left empty.
   */
  ghost predicate Tiling(index: seq<IndexEntry>, files: seq<bytes>, limit: nat) {
    && |files| > 0
    && (forall i :: 0 <= i < |index| ==> InShard(index[i], files))
    && (forall i :: 0 <= i < |index| ==> WithinLimit(index[i], files, limit))
    && (forall i :: 0 <= i < |index| - 1 ==> Follows(index[i], index[i + 1], files, limit))
    && (forall s :: 0 <= s < |files| - 1 ==> files[s] != [])
    && (if index == [] then files == [[]]
        else
          var last := index[|index| - 1];
          && index[0].shardId == 0 && index[0].offset == 0
          && last.shardId == |files| - 1 && last.offset + last.byteLen == |files[|files| - 1]|)
  }

  lemma TilingSameShard(
    index: seq<IndexEntry>, files: seq<bytes>, limit: nat, record: bytes, e: IndexEntry, files': seq<bytes>)
    requires Tiling(index, files, limit) && record != []
    requires e.shardId == |files| - 1 && e.offset == |files[|files| - 1]| && e.byteLen == |record|
    requires e.offset == 0 || e.offset + |record| <= limit
    requires files' == files[..|files| - 1] + [files[|files| - 1] + record]
    ensures Tiling(index + [e], files', limit)
  {
    var all, last := index + [e], |files| - 1;
    forall i | 0 <= i < |all| ensures InShard(all[i], files') && WithinLimit(all[i], files', limit) {
      if i < |index| {
        assert InShard(index[i], files) && WithinLimit(index[i], files, limit);
      }
    }
    forall i | 0 <= i < |all| - 1 ensures Follows(all[i], all[i + 1], files', limit) {
      if i < |index| - 1 {
        assert Follows(index[i], index[i + 1], files, limit);
        assert InShard(index[i + 1], files);
      }
    }
  }

  lemma TilingNewShard(index: seq<IndexEntry>, files: seq<bytes>, limit: nat, record: bytes, e: IndexEntry)
    requires Tiling(index, files, limit) && record != [] && files[|files| - 1] != []
    requires e.shardId == |files| && e.offset == 0 && e.byteLen == |record|
    requires |files[|files| - 1]| + |record| > limit
    ensures Tiling(index + [e], files + [record], limit)
  {
    var all, files' := index + [e], files + [record];
    forall i | 0 <= i < |all| ensures InShard(all[i], files') && WithinLimit(all[i], files', limit) {
      if i < |index| {
        assert InShard(index[i], files) && WithinLimit(index[i], files, limit);
      }
    }
    forall i | 0 <= i < |all| - 1 ensures Follows(all[i], all[i + 1], files', limit) {
      if i < |index| - 1 {
        assert Follows(index[i], index[i + 1], files, limit);
      }
    }
  }

  // ---------------------------------------------------------------- records in their shards

  /** The record fills the slice its entry names, and its raw size is part of the shard's total. */
  ghost predicate Placed(e: IndexEntry, encoded: Encoded, files: seq<bytes>, totals: seq<nat>) {
    && InShard(e, files) && |totals| == |files|
    && files[e.shardId][e.offset..e.offset + e.byteLen] == encoded.record
    && encoded.raw <= totals[e.shardId]
  }

  /** Where the records are: the tiling, and each record in its place. */
  ghost predicate LayoutValid(
    index: seq<IndexEntry>, files: seq<bytes>, totals: seq<nat>, records: seq<Encoded>, limit: nat) {
    && Tiling(index, files, limit)
    && |records| == |index| && |totals| == |files|
    && forall i :: 0 <= i < |index| ==> Placed(index[i], records[i], files, totals)
  }

  lemma PlaceInSameShard(index: seq<IndexEntry>, files: seq<bytes>, totals: seq<nat>, records: seq<Encoded>, limit: nat,
                         encoded: Encoded, e: IndexEntry, files': seq<bytes>, totals': seq<nat>)
    requires LayoutValid(index, files, totals, records, limit) && encoded.record != []
    requires e.shardId == |files| - 1 && e.offset == |files[|files| - 1]| && e.byteLen == |encoded.record|
    requires e.offset == 0 || e.offset + |encoded.record| <= limit
    requires files' == files[..|files| - 1] + [files[|files| - 1] + encoded.record]
    requires totals' == totals[..|files| - 1] + [totals[|files| - 1] + encoded.raw]
    ensures LayoutValid(index + [e], files', totals', records + [encoded], limit)
  {
    TilingSameShard(index, files, limit, encoded.record, e, files');
    forall i | 0 <= i < |index| ensures Placed(index[i], records[i], files', totals') {
      var x := index[i];
      assert Placed(x, records[i], files, totals);
      assert files'[x.shardId][x.offset..x.offset + x.byteLen] == files[x.shardId][x.offset..x.offset + x.byteLen];
    }
    assert files'[e.shardId][e.offset..e.offset + e.byteLen] == encoded.record;
  }

  lemma PlaceInNewShard(index: seq<IndexEntry>, files: seq<bytes>, totals: seq<nat>, records: seq<Encoded>, limit: nat,
                        encoded: Encoded, e: IndexEntry)
    requires LayoutValid(index, files, totals, records, limit) && encoded.record != [] && files[|files| - 1] != []
    requires e.shardId == |files| && e.offset == 0 && e.byteLen == |encoded.record|
    requires |files[|files| - 1]| + |encoded.record| > limit
    ensures LayoutValid(index + [e], files + [encoded.record], totals + [encoded.raw], records + [encoded], limit)
  {
    TilingNewShard(index, files, limit, encoded.record, e);
    var files', totals' := files + [encoded.record], totals + [encoded.raw];
    forall i | 0 <= i < |index| ensures Placed(index[i], records[i], files', totals') {
      assert Placed(index[i], records[i], files, totals);
    }
    assert files'[e.shardId][e.offset..e.offset + e.byteLen] == encoded.record;
  }

  // ---------------------------------------------------------------- samples in their records

  /** Raw bytes of the records placed in one shard. */
  ghost function RawIn(index: seq<IndexEntry>, records: seq<Encoded>, s: nat): nat
    requires |records| == |index|
  {
    if index == [] then 0
    else
      var last := |index| - 1;
      RawIn(index[..last], records[..last], s) + if index[last].shardId == s then records[last].raw else 0
  }

  /** Every shard's recorded uncompressed length is the sum over its own records. */
  ghost predicate TotalsExact(index: seq<IndexEntry>, totals: seq<nat>, records: seq<Encoded>) {
    |records| == |index| && forall s :: 0 <= s < |totals| ==> totals[s] == RawIn(index, records, s)
  }

  lemma RawMore(index: seq<IndexEntry>, records: seq<Encoded>, e: IndexEntry, encoded: Encoded, s: nat)
    requires |records| == |index|
    ensures RawIn(index + [e], records + [encoded], s) ==
      RawIn(index, records, s) + if e.shardId == s then encoded.raw else 0
  {
    assert (index + [e])[..|index|] == index && (records + [encoded])[..|index|] == records;
  }

  lemma {:induction false} RawNone(index: seq<IndexEntry>, records: seq<Encoded>, s: nat)
    requires |records| == |index| && forall i :: 0 <= i < |index| ==> index[i].shardId < s
    ensures RawIn(index, records, s) == 0
    decreases |index|
  {
    if index != [] {
      RawNone(index[..|index| - 1], records[..|index| - 1], s);
    }
  }

  lemma TotalsSameShard(
    index: seq<IndexEntry>, totals: seq<nat>, records: seq<Encoded>, encoded: Encoded, e: IndexEntry, totals': seq<nat>)
    requires TotalsExact(index, totals, records) && |totals| > 0 && e.shardId == |totals| - 1
    requires totals' == totals[..|totals| - 1] + [totals[|totals| - 1] + encoded.raw]
    ensures TotalsExact(index + [e], totals', records + [encoded])
  {
    forall s | 0 <= s < |totals'|
      ensures totals'[s] == RawIn(index + [e], records + [encoded], s)
    {
      RawMore(index, records, e, encoded, s);
    }
  }

  lemma TotalsNewShard(index: seq<IndexEntry>, totals: seq<nat>, records: seq<Encoded>, encoded: Encoded, e: IndexEntry)
    requires TotalsExact(index, totals, records) && e.shardId == |totals|
    requires forall i :: 0 <= i < |index| ==> index[i].shardId < |totals|
    ensures TotalsExact(index + [e], totals + [encoded.raw], records + [encoded])
  {
    RawNone(index, records, |totals|);
    forall s | 0 <= s < |totals| + 1
      ensures (totals + [encoded.raw])[s] == RawIn(index + [e], records + [encoded], s)
    {
      RawMore(index, records, e, encoded, s);
    }
  }

  lemma OpenNextShard(
    index: seq<IndexEntry>, files: seq<bytes>, totals: seq<nat>, records: seq<Encoded>, limit: nat, encoded: Encoded,
    e: IndexEntry)
    requires LayoutValid(index, files, totals, records, limit) && TotalsExact(index, totals, records)
    requires encoded.record != [] && files[|files| - 1] != [] && |files[|files| - 1]| + |encoded.record| > limit
    requires e.shardId == |files| && e.offset == 0 && e.byteLen == |encoded.record|
    ensures LayoutValid(index + [e], files + [encoded.record], totals + [encoded.raw], records + [encoded], limit)
    ensures TotalsExact(index + [e], totals + [encoded.raw], records + [encoded])
  {
    PlaceInNewShard(index, files, totals, records, limit, encoded, e);
    forall i | 0 <= i < |index|
      ensures index[i].shardId < |totals|
    {
      assert InShard(index[i], files);
    }
    TotalsNewShard(index, totals, records, encoded, e);
  }

  /** The schema a row was encoded with: rows without metadata predate the fixing of the schema. */
  ghost function SchemaOf(schema: seq<Field>, row: seq<Value>): seq<Field> {
    if row == [] then [] else schema
  }

  /** The record is what the encoder makes of the sample. */
  ghost predicate EncodedFrom(
    f: Foreign, c: Compression, schema: seq<Field>, row: seq<Value>, input: Input, encoded: Encoded) {
    && ObjectToRow(SchemaOf(schema, row), input.metadata) == Some(row)
    && EncodeStoredRecord(f, c, input.data, SchemaOf(schema, row), row) == Ok(encoded)
  }

  ghost predicate ContentValid(
    f: Foreign, c: Compression, schema: seq<Field>, rows: seq<seq<Value>>, pushed: seq<Input>,
    records: seq<Encoded>) {
    && DistinctNames(schema)
    && |rows| == |pushed| == |records|
    && forall i :: 0 <= i < |rows| ==> EncodedFrom(f, c, schema, rows[i], pushed[i], records[i])
  }

  /** Fixing a schema that is still empty cannot disturb rows without metadata. */
  lemma FixingSchemaKeepsContent(
    f: Foreign, c: Compression, rows: seq<seq<Value>>, pushed: seq<Input>, records: seq<Encoded>, schema: seq<Field>)
    requires ContentValid(f, c, [], rows, pushed, records) && DistinctNames(schema)
    ensures ContentValid(f, c, schema, rows, pushed, records)
  {
    forall i | 0 <= i < |rows| ensures EncodedFrom(f, c, schema, rows[i], pushed[i], records[i]) {
      assert EncodedFrom(f, c, [], rows[i], pushed[i], records[i]);
    }
  }

  lemma AppendKeepsContent(
    f: Foreign, c: Compression, schema: seq<Field>, rows: seq<seq<Value>>, pushed: seq<Input>, records: seq<Encoded>,
     row: seq<Value>, input: Input, encoded: Encoded)
    requires ContentValid(f, c, schema, rows, pushed, records) && EncodedFrom(f, c, schema, row, input, encoded)
    ensures ContentValid(f, c, schema, rows + [row], pushed + [input], records + [encoded])
  {
  }

  /** The schema of a first sample: its keys in map order, each with the kind of its value. */
  function FirstSchema(f: Foreign, metadata: Object): (r: seq<Field>)
    requires f.KeysLawful()
    ensures DistinctNames(r) && |r| == |metadata| && HasFields(metadata, r)
  {
    var keys := f.keyOrder(metadata.Keys);
    DistinctLength(keys);
    assert forall k :: k in keys ==> k in Elements(keys);
    seq(|keys|, i requires 0 <= i < |keys| && keys[i] in metadata => Field(keys[i], KindOf(metadata[keys[i]])))
  }

  /** Uncompressed totals of all shards, the open one last. */
  ghost function Totals(shards: seq<ShardManifest>, current: OpenShard): (r: seq<nat>)
    ensures |r| == |shards| + 1
  {
    seq(|shards|, i requires 0 <= i < |shards| => shards[i].uncompressed) + [current.uncompressed]
  }

  ghost predicate ShardsMatch(shards: seq<ShardManifest>, current: OpenShard, files: seq<bytes>) {
    && |files| == |shards| + 1 && current.id == |shards|
    && current.byteLen == |files[|shards|]|
    && (forall s :: 0 <= s < |shards| ==> shards[s].byteLen == |files[s]|)
  }

  /** Closing the open shard and starting the next one keeps the lists in line. */
  lemma NextShardMatches(
    shards: seq<ShardManifest>, current: OpenShard, files: seq<bytes>, record: bytes, next: OpenShard,
    closed: seq<ShardManifest>)
    requires ShardsMatch(shards, current, files) && next.id == current.id + 1 && next.byteLen == |record|
    requires closed == shards + [ShardManifest(current.byteLen, current.uncompressed)]
    ensures ShardsMatch(closed, next, files + [record])
    ensures Totals(closed, next) == Totals(shards, current) + [next.uncompressed]
  {
  }

  /** The open shard after one more record, or nothing when a shard number would overflow. */
  ghost function WrittenTo(current: OpenShard, limit: u64, encoded: Encoded): Option<OpenShard> {
    if current.byteLen != 0 && |encoded.record| > Max(0, limit - current.byteLen) then
      if current.id == U64_MAX || |encoded.record| > U64_MAX || encoded.raw > U64_MAX then None
      else Some(OpenShard(current.id + 1, |encoded.record|, encoded.raw))
    else if current.byteLen + |encoded.record| > U64_MAX || current.uncompressed + encoded.raw > U64_MAX then None
    else Some(OpenShard(current.id, current.byteLen + |encoded.record|, current.uncompressed + encoded.raw))
  }

  /** The record of a sample under this schema. */
  ghost predicate EncodedAs(f: Foreign, c: Compression, schema: seq<Field>, input: Input, encoded: Encoded) {
    var row := ObjectToRow(schema, input.metadata);
    && row.Some? && EncodeStoredRecord(f, c, input.data, schema, row.value) == Ok(encoded)
    && |encoded.record| <= U64_MAX && encoded.raw <= U64_MAX
  }

  lemma TakenWhen(
    f: Foreign, c: Compression, limit: u64, desk: Desk, input: Input, encoded: Encoded, after: Desk)
    requires f.KeysLawful() && after.schema == if desk.schema == [] then FirstSchema(f, input.metadata) else desk.schema
    requires EncodedAs(f, c, after.schema, input, encoded)
    requires WrittenTo(desk.current, limit, encoded) == Some(after.current)
    ensures Taken(f, c, limit, desk, input) == Some(after)
  {
  }

  /** What of a builder decides about the next sample. */
  datatype Desk = Desk(schema: seq<Field>, current: OpenShard)

  /** The builder's verdict on one sample, as a function of what decides it. */
  ghost function Taken(f: Foreign, c: Compression, limit: u64, desk: Desk, input: Input): Option<Desk>
    requires f.KeysLawful()
  {
    var schema := if desk.schema == [] then FirstSchema(f, input.metadata) else desk.schema;
    match ObjectToRow(schema, input.metadata)
    case None => None
    case Some(row) =>
      match EncodeStoredRecord(f, c, input.data, schema, row)
      case Err(_) => None
      case Ok(encoded) =>
        if |encoded.record| > U64_MAX || encoded.raw > U64_MAX then None
        else
          match WrittenTo(desk.current, limit, encoded)
          case None => None
          case Some(current) => Some(Desk(schema, current))
  }

  class CacheBuilder {
    const f: Foreign
    const compression: Compression
    const maxShardBytes: u64
    var schema: seq<Field>
    var metadataRows: seq<seq<Value>>
    var index: seq<IndexEntry>
    var shards: seq<ShardManifest>
    var current: OpenShard
    var files: seq<bytes>
    ghost var pushed: seq<Input>
    ghost var records: seq<Encoded>

    /** Shard ids are manifest positions, and every recorded length is the length of its file. */
    ghost predicate ShardsValid()
      reads this`shards, this`current, this`files
    {
      ShardsMatch(shards, current, files)
    }

    ghost predicate RecordsValid()
      reads this`shards, this`current, this`files, this`index, this`records
    {
      && ShardsValid() && LayoutValid(index, files, Totals(shards, current), records, maxShardBytes)
      && TotalsExact(index, Totals(shards, current), records)
    }

    ghost predicate Valid()
      reads this
    {
      RecordsValid() && ContentValid(f, compression, schema, metadataRows, pushed, records)
    }

    constructor (f: Foreign, compression: Compression, maxShardBytes: u64)
      requires maxShardBytes > 0
      ensures Valid() && pushed == [] && schema == [] && current == OpenShard(0, 0, 0) && fresh(this)
      ensures this.f == f && this.compression == compression && this.maxShardBytes == maxShardBytes
    {
      this.f, this.compression, this.maxShardBytes := f, compression, maxShardBytes;
      schema, metadataRows, index, shards, pushed, records := [], [], [], [], [], [];
      current, files := OpenShard(0, 0, 0), [[]];
    }

    /** `rotate_shard_if_needed` decides on the saturated room left; an empty shard takes any record. */
    predicate MustRotate(len: nat)
      reads this`current
    {
      current.byteLen != 0 && len > Max(0, maxShardBytes - current.byteLen)
    }

    /** Close the current shard and write the record at the start of the next one. */
    method WriteNewShard(record: bytes, raw: u64) returns (r: Result<()>)
      requires RecordsValid() && current.byteLen != 0 && 0 < |record| <= U64_MAX
      requires current.byteLen + |record| > maxShardBytes
      modifies this`shards, this`current, this`files, this`index, this`records
      ensures RecordsValid()
      ensures r.Ok? <==> old(current.id) < U64_MAX
      ensures r.Ok? ==> current == OpenShard(old(current.id) + 1, |record|, raw)
      ensures r.Ok? ==> records == old(records) + [Encoded(record, raw)]
      ensures r.Err? ==> unchanged(this)
    {
      if current.id == U64_MAX {
        return Err(InvalidInput);
      }
      var e := IndexEntry(current.id + 1, 0, |record|);
      OpenNextShard(index, files, Totals(shards, current), records, maxShardBytes, Encoded(record, raw), e);
      var closed := shards + [ShardManifest(current.byteLen, current.uncompressed)];
      var next := OpenShard(current.id + 1, |record|, raw);
      NextShardMatches(shards, current, files, record, next, closed);
      shards, current := closed, next;
      files := files + [record];
      index := index + [e];
      records := records + [Encoded(record, raw)];
      r := Ok(());
    }

    /** `write_payload`: lengths are checked before anything is written. */
    method WriteSameShard(record: bytes, raw: u64) returns (r: Result<()>)
      requires RecordsValid() && 0 < |record| <= U64_MAX
      requires current.byteLen == 0 || current.byteLen + |record| <= maxShardBytes
      modifies this`current, this`files, this`index, this`records
      ensures RecordsValid()
      ensures r.Ok? <==> old(current.byteLen) + |record| <= U64_MAX && old(current.uncompressed) + raw <= U64_MAX
      ensures r.Ok? ==>
        current == OpenShard(old(current.id), old(current.byteLen) + |record|, old(current.uncompressed) + raw)
      ensures r.Ok? ==> records == old(records) + [Encoded(record, raw)]
      ensures r.Err? ==> unchanged(this)
    {
      if current.byteLen + |record| > U64_MAX || current.uncompressed + raw > U64_MAX {
        return Err(InvalidInput);
      }
      var e := IndexEntry(current.id, current.byteLen, |record|);
      ghost var totals := Totals(shards, current);
      var last := |files| - 1;
      PlaceInSameShard(index, files, totals, records, maxShardBytes, Encoded(record, raw), e,
                       files[..last] + [files[last] + record], totals[..last] + [totals[last] + raw]);
      TotalsSameShard(index, totals, records, Encoded(record, raw), e, totals[..last] + [totals[last] + raw]);
      files := files[..last] + [files[last] + record];
      current := OpenShard(current.id, current.byteLen + |record|, current.uncompressed + raw);
      assert Totals(shards, current) == totals[..last] + [totals[last] + raw];
      index := index + [e];
      records := records + [Encoded(record, raw)];
      r := Ok(());
    }

    /** The numbers of a shard must not overflow; a new shard starts from zero and only needs an id. */
    ghost predicate CanWrite(encoded: Encoded)
      reads this`current
    {
      if MustRotate(|encoded.record|) then current.id < U64_MAX
      else current.byteLen + |encoded.record| <= U64_MAX && current.uncompressed + encoded.raw <= U64_MAX
    }

    ghost predicate CanStore(encoded: Result<Encoded>)
      reads this`current
    {
      encoded.Ok? && |encoded.value.record| <= U64_MAX && encoded.value.raw <= U64_MAX && CanWrite(encoded.value)
    }

    /** The schema a sample is judged by: the fixed one, or its own when none is fixed yet. */
    ghost function SchemaFor(metadata: Object): seq<Field>
      requires f.KeysLawful()
      reads this`schema
    {
      if schema == [] then FirstSchema(f, metadata) else schema
    }

    /** Exactly the samples that are accepted. */
    ghost predicate Accepts(data: bytes, metadata: Object)
      requires f.KeysLawful()
      reads this`schema, this`current
    {
      var row := ObjectToRow(SchemaFor(metadata), metadata);
      row.Some? && CanStore(EncodeStoredRecord(f, compression, data, SchemaFor(metadata), row.value))
    }

    /** The builder's verdict is the function `Taken` of its schema and open shard. */
    lemma AcceptsIsTaken(input: Input)
      requires f.KeysLawful()
      ensures Accepts(input.data, input.metadata) <==>
        Taken(f, compression, maxShardBytes, Desk(schema, current), input).Some?
    {
    }

    /** The record goes to the current shard while it has room, and opens the next one otherwise. */
    method Write(encoded: Encoded) returns (r: Result<()>)
      requires RecordsValid() && 0 < |encoded.record| <= U64_MAX && encoded.raw <= U64_MAX
      modifies this`shards, this`current, this`files, this`index, this`records
      ensures RecordsValid()
      ensures r.Ok? <==> old(CanWrite(encoded))
      ensures r.Ok? ==> records == old(records) + [encoded]
      ensures r.Ok? ==> Some(current) == WrittenTo(old(current), maxShardBytes, encoded)
      ensures r.Err? ==> unchanged(this)
    {
      if MustRotate(|encoded.record|) {
        r := WriteNewShard(encoded.record, encoded.raw);
      } else {
        r := WriteSameShard(encoded.record, encoded.raw);
      }
    }

    /** `validate_metadata`: the first sample with metadata fixes the schema, even if it is refused later. */
    method ValidateMetadata(metadata: Object) returns (r: Result<seq<Value>>)
      requires f.KeysLawful() && ContentValid(f, compression, schema, metadataRows, pushed, records)
      modifies this`schema
      ensures ContentValid(f, compression, schema, metadataRows, pushed, records)
      ensures schema == old(SchemaFor(metadata))
      ensures r.Ok? <==> ObjectToRow(schema, metadata).Some?
      ensures r.Ok? ==> ObjectToRow(schema, metadata) == Some(r.value)
    {
      if schema == [] {
        FixingSchemaKeepsContent(f, compression, metadataRows, pushed, records, FirstSchema(f, metadata));
        schema := FirstSchema(f, metadata);
      }
      var row := ObjectToRow(schema, metadata);
      r := if row.None? then Err(InvalidInput) else Ok(row.value);
    }

    /** Write an encoded sample and record its metadata row beside it. */
    method Append(encoded: Encoded, row: seq<Value>, ghost input: Input) returns (r: Result<()>)
      requires RecordsValid() && 0 < |encoded.record| <= U64_MAX && encoded.raw <= U64_MAX
      modifies this`shards, this`current, this`files, this`index, this`records, this`metadataRows, this`pushed
      ensures RecordsValid()
      ensures r.Ok? <==> old(CanWrite(encoded))
      ensures r.Ok? ==> records == old(records) + [encoded] && metadataRows == old(metadataRows) + [row]
      ensures r.Ok? ==> pushed == old(pushed) + [input]
      ensures r.Ok? ==> Some(current) == WrittenTo(old(current), maxShardBytes, encoded)
      ensures r.Err? ==> unchanged(this)
    {
      r := Write(encoded);
      if r.Ok? {
        metadataRows := metadataRows + [row];
        pushed := pushed + [input];
      }
    }

    /** The rest of a push, once the metadata has become a row of the schema. */
    method Store(input: Input, row: seq<Value>) returns (r: Result<()>)
      requires Valid() && ObjectToRow(schema, input.metadata) == Some(row)
      modifies this`shards, this`current, this`files, this`index, this`records, this`metadataRows, this`pushed
      ensures Valid()
      ensures r.Ok? <==> old(CanStore(EncodeStoredRecord(f, compression, input.data, schema, row)))
      ensures r.Ok? ==> pushed == old(pushed) + [input] && records != []
      ensures r.Ok? ==> Some(current) == WrittenTo(old(current), maxShardBytes, records[|records| - 1])
      ensures r.Ok? ==> EncodedAs(f, compression, schema, input, records[|records| - 1])
      ensures r.Err? ==> unchanged(this)
    {
      var encoded := Encode(f, compression, schema, row, input);
      if encoded.Err? {
        return Err(encoded.error);
      }
      AppendKeepsContent(f, compression, schema, metadataRows, pushed, records, row, input, encoded.value);
      r := Append(encoded.value, row, input);
    }

    /**
     `push_sample`: an accepted sample is stored after all earlier ones; a refused one leaves every
     stored sample, shard and index entry as it was. Only the schema may have become fixed.
     */
    method PushSample(data: bytes, metadata: Object) returns (r: Result<()>)
      requires Valid() && f.KeysLawful() && |data| <= U64_MAX
      modifies this
      ensures Valid()
      ensures r.Ok? <==> old(Accepts(data, metadata))
      ensures r.Ok? ==> pushed == old(pushed) + [Input(data, metadata)] && records != []
      ensures r.Ok? ==> Some(current) == WrittenTo(old(current), maxShardBytes, records[|records| - 1])
      ensures r.Ok? ==> EncodedAs(f, compression, schema, Input(data, metadata), records[|records| - 1])
      ensures schema == old(SchemaFor(metadata))
      ensures r.Err? ==> pushed == old(pushed) && index == old(index) && files == old(files) && shards == old(shards)
    {
      var row := ValidateMetadata(metadata);
      if row.Err? {
        return Err(row.error);
      }
      r := Store(Input(data, metadata), row.value);
    }

    /** `write_metadata_file`: rows must have all columns, at least one, and strings that Arrow can hold. */
    method WriteMetadata(filesWritten: bool) returns (ok: bool)
      ensures ok <==> filesWritten && schema != [] && AllFit(schema, metadataRows) && Storable(f, metadataRows)
    {
      var batches := MetadataBatches.WriteBatches(Cells(f, metadataRows));
      ok := filesWritten && schema != [] && AllFit(schema, metadataRows) && batches.Ok?;
    }

    /**
     `finish`: refused without samples, or when the metadata columns cannot be built. For the caller that
     is: accepted exactly when there are samples, every one of them came with metadata, and the strings
     fit. `filesWritten` stands for the file operations.
     */
    method Finish(filesWritten: bool) returns (r: Result<Cache>)
      requires Valid()
      ensures r.Ok? ==> Holds(f, r.value, pushed, maxShardBytes)
      ensures r.Ok? <==>
        && pushed != [] && filesWritten && Storable(f, metadataRows)
        && (forall i :: 0 <= i < |pushed| ==> pushed[i].metadata != map[])
    {
      assert |index| == |pushed|;
      RowsFitExactly(f, compression, schema, metadataRows, pushed, records);
      SchemaFixed(f, compression, schema, metadataRows, pushed, records);
      if |index| == 0 {
        return Err(InvalidInput);
      }
      var written := WriteMetadata(filesWritten);
      if !written {
        return Err(InvalidInput);
      }
      AssembledHolds(f, compression, schema, shards, current, index, files, metadataRows, records, pushed,
        maxShardBytes);
      r := Ok(Assemble(compression, schema, shards, current, index, files, metadataRows));
    }
  }

  /** The cells of metadata rows as the batching sees them. */
  function CellRow(f: Foreign, row: seq<Value>): (r: seq<MetadataBatches.Cell>) {
    if row == [] then []
    else
      var last := row[|row| - 1];
      var cell := if last.Text? then MetadataBatches.Text(f.utf8Len(last.text)) else MetadataBatches.Other;
      CellRow(f, row[..|row| - 1]) + [cell]
  }

  function Cells(f: Foreign, rows: seq<seq<Value>>): (r: seq<seq<MetadataBatches.Cell>>) {
    if rows == [] then [] else Cells(f, rows[..|rows| - 1]) + [CellRow(f, rows[|rows| - 1])]
  }

  /** Every string is short enough for Arrow, and every row for a machine word. */
  ghost predicate Storable(f: Foreign, rows: seq<seq<Value>>) { MetadataBatches.AllStorable(Cells(f, rows)) }

  /** A stored sample with metadata means that the schema has been fixed. */
  lemma SchemaFixed(
    f: Foreign, c: Compression, schema: seq<Field>, rows: seq<seq<Value>>, pushed: seq<Input>, records: seq<Encoded>)
    requires ContentValid(f, c, schema, rows, pushed, records)
    ensures pushed != [] && pushed[0].metadata != map[] ==> schema != []
  {
    if pushed != [] {
      assert EncodedFrom(f, c, schema, rows[0], pushed[0], records[0]);
      assert |pushed[0].metadata| == 0 <==> pushed[0].metadata == map[];
    }
  }

  /** Encode with the schema just validated; lengths must fit the index and the shard totals. */
  method Encode(
    f: Foreign, c: Compression, schema: seq<Field>, row: seq<Value>, input: Input) returns (r: Result<Encoded>)
    requires ObjectToRow(schema, input.metadata) == Some(row)
    ensures r.Ok? ==> EncodedFrom(f, c, schema, row, input, r.value)
    ensures r.Ok? ==> r == EncodeStoredRecord(f, c, input.data, schema, row)
    ensures r.Err? ==> var encoded := EncodeStoredRecord(f, c, input.data, schema, row);
      encoded.Err? || |encoded.value.record| > U64_MAX || encoded.value.raw > U64_MAX
    ensures r.Ok? ==> 0 < |r.value.record| <= U64_MAX && r.value.raw <= U64_MAX
  {
    r := EncodeStoredRecord(f, c, input.data, schema, row);
    assert SchemaOf(schema, row) == schema;
    if r.Ok? && (|r.value.record| > U64_MAX || r.value.raw > U64_MAX) {
      r := Err(InvalidInput);
    }
  }

  /** The files of the finished cache; the open shard is closed as the last one. */
  function Assemble(
    c: Compression, schema: seq<Field>, shards: seq<ShardManifest>, current: OpenShard, index: seq<IndexEntry>,
    files: seq<bytes>, rows: seq<seq<Value>>)
    : (r: Cache)
  {
    Cache(c, schema, shards + [ShardManifest(current.byteLen, current.uncompressed)], |index|, IndexFile(index),
      files, rows)
  }

  lemma AssembledHolds(
    f: Foreign, c: Compression, schema: seq<Field>, shards: seq<ShardManifest>, current: OpenShard,
    index: seq<IndexEntry>, files: seq<bytes>, rows: seq<seq<Value>>, records: seq<Encoded>, pushed: seq<Input>,
    limit: nat)
    requires |files| == |shards| + 1 && current.byteLen == |files[|shards|]|
    requires forall s :: 0 <= s < |shards| ==> shards[s].byteLen == |files[s]|
    requires LayoutValid(index, files, Totals(shards, current), records, limit)
    requires TotalsExact(index, Totals(shards, current), records)
    requires ContentValid(f, c, schema, rows, pushed, records) && AllFit(schema, rows)
    ensures Holds(f, Assemble(c, schema, shards, current, index, files, rows), pushed, limit)
  {
    var cache := Assemble(c, schema, shards, current, index, files, rows);
    AssembledIsRecorded(cache, c, schema, shards, current, index, files, rows);
    HoldsFrom(f, cache, pushed, limit, index, records, Totals(shards, current));
  }

  lemma AssembledIsRecorded(
    cache: Cache, c: Compression, schema: seq<Field>, shards: seq<ShardManifest>, current: OpenShard,
    index: seq<IndexEntry>, files: seq<bytes>, rows: seq<seq<Value>>)
    requires cache == Assemble(c, schema, shards, current, index, files, rows) && |rows| == |index|
    requires |files| == |shards| + 1 && current.byteLen == |files[|shards|]|
    requires forall s :: 0 <= s < |shards| ==> shards[s].byteLen == |files[s]|
    ensures Recorded(cache, index) && ShardTotals(cache) == Totals(shards, current)
  {
  }

  lemma HoldsFrom(
    f: Foreign, cache: Cache, pushed: seq<Input>, limit: nat, index: seq<IndexEntry>, records: seq<Encoded>,
    totals: seq<nat>)
    requires Recorded(cache, index) && ShardTotals(cache) == totals && AllFit(cache.schema, cache.metadataRows)
    requires LayoutValid(index, cache.files, totals, records, limit) && TotalsExact(index, totals, records)
    requires ContentValid(f, cache.compression, cache.schema, cache.metadataRows, pushed, records)
    ensures Holds(f, cache, pushed, limit)
  {
    assert HoldsAt(f, cache, pushed, limit, index, records);
  }

  /** What building the metadata columns requires of the rows. */
  predicate AllFit(schema: seq<Field>, rows: seq<seq<Value>>) {
    forall i :: 0 <= i < |rows| ==> Fits(schema, rows[i])
  }

  /**
   "Every accepted row fits the schema" is not kept by each push, because an empty schema is fixed again
   by the next sample. It holds exactly when no sample without metadata came before the schema was
   fixed, which is what `finish` then accepts.
   */
  lemma RowsFitExactly(
    f: Foreign, c: Compression, schema: seq<Field>, rows: seq<seq<Value>>, pushed: seq<Input>, records: seq<Encoded>)
    requires ContentValid(f, c, schema, rows, pushed, records)
    ensures AllFit(schema, rows) <==> schema == [] || forall i :: 0 <= i < |pushed| ==> pushed[i].metadata != map[]
  {
    forall i | 0 <= i < |rows|
      ensures pushed[i].metadata == map[] <==> rows[i] == []
      ensures Fits(schema, rows[i]) <==> schema == [] || rows[i] != []
    {
      assert EncodedFrom(f, c, schema, rows[i], pushed[i], records[i]);
      assert ObjectToRow(SchemaOf(schema, rows[i]), pushed[i].metadata) == Some(rows[i]);
      assert |pushed[i].metadata| == 0 <==> pushed[i].metadata == map[];
    }
    if i :| 0 <= i < |pushed| && pushed[i].metadata == map[] {
      assert Fits(schema, rows[i]) <==> schema == [];
    }
  }

  /** The index file lists the entries, and the manifest the length of every shard file. */
  ghost predicate Recorded(cache: Cache, index: seq<IndexEntry>) {
    && cache.indexFile == IndexFile(index) && cache.sampleCount == |index| == |cache.metadataRows|
    && |cache.shards| == |cache.files|
    && forall s :: 0 <= s < |cache.shards| ==> cache.shards[s].byteLen == |cache.files[s]|
  }

  ghost function ShardTotals(cache: Cache): (r: seq<nat>)
    ensures |r| == |cache.shards|
  {
    seq(|cache.shards|, i requires 0 <= i < |cache.shards| => cache.shards[i].uncompressed)
  }

  /** A finished cache holds `pushed`: all rows fit its schema and each sample is stored in its place. */
  ghost predicate Holds(f: Foreign, cache: Cache, pushed: seq<Input>, limit: nat) {
    && AllFit(cache.schema, cache.metadataRows)
    && exists index, records :: HoldsAt(f, cache, pushed, limit, index, records)
  }

  ghost predicate HoldsAt(
    f: Foreign, cache: Cache, pushed: seq<Input>, limit: nat, index: seq<IndexEntry>, records: seq<Encoded>) {
    && Recorded(cache, index)
    && LayoutValid(index, cache.files, ShardTotals(cache), records, limit)
    && TotalsExact(index, ShardTotals(cache), records)
    && ContentValid(f, cache.compression, cache.schema, cache.metadataRows, pushed, records)
  }

  // ---------------------------------------------------------------- reading

  /** `read_sample_with_cache`: every address is checked before the record is decoded. */
  function ReadSample(f: Foreign, cache: Cache, i: nat, validate: bool): (r: Result<(bytes, seq<Value>)>) {
    match IndexGet(cache.indexFile, i)
    case Err(e) => Err(e)
    case Ok(entry) =>
      if entry.shardId >= |cache.shards| || entry.shardId >= |cache.files| then Err(InvalidCache)
      else
        var shard, end := cache.shards[entry.shardId], entry.offset + entry.byteLen;
        if end > U64_MAX || end > shard.byteLen || end > |cache.files[entry.shardId]| then Err(InvalidCache)
        else
          match DecodeStoredRecord(f, cache.compression, cache.compression.WholeRecord(), shard.uncompressed,
                                   cache.schema,
                                   cache.files[entry.shardId][entry.offset..end])
          case Err(e) => Err(e)
          case Ok((data, row)) =>
            if validate && (i >= |cache.metadataRows| || cache.metadataRows[i] != row) then Err(InvalidCache)
            else Ok((data, row))
  }

  lemma ReadPlaced(f: Foreign, cache: Cache, i: nat, validate: bool, index: seq<IndexEntry>, encoded: Encoded)
    requires Recorded(cache, index) && i < |index| && |index| * INDEX_ROW_BYTES <= U64_MAX
    requires Placed(index[i], encoded, cache.files, ShardTotals(cache))
    ensures encoded.raw <= cache.shards[index[i].shardId].uncompressed
    ensures ReadSample(f, cache, i, validate) ==
            match DecodeStoredRecord(f, cache.compression, cache.compression.WholeRecord(),
                                     cache.shards[index[i].shardId].uncompressed, cache.schema, encoded.record)
            case Err(e) => Err(e)
            case Ok((data, row)) =>
              if validate && cache.metadataRows[i] != row then Err(InvalidCache) else Ok((data, row))
  {
    IndexRoundTrip(index, i);
  }

  lemma DecodeEncoded(
    f: Foreign, c: Compression, schema: seq<Field>, row: seq<Value>, input: Input, encoded: Encoded, maxLen: nat)
    requires f.CodecLawful() && f.JsonSafe(input.metadata) && DistinctNames(schema) && Fits(schema, row)
    requires EncodedFrom(f, c, schema, row, input, encoded) && encoded.raw <= maxLen
    ensures DecodeStoredRecord(f, c, c.WholeRecord(), maxLen, schema, encoded.record) == Ok((input.data, row))
    ensures RowToObject(schema, row) == input.metadata
  {
    assert SchemaOf(schema, row) == schema;
    ObjectRoundTripsRow(schema, input.metadata);
    RecordRoundTrip(f, c, input.data, schema, row, maxLen);
  }

  /**
   Build/read round trip: reading index `i` of a finished cache returns the i-th pushed payload and its
   metadata, in both layouts and with or without validation, given only the foreign round trips.
   */
  lemma ReadRoundTrip(f: Foreign, cache: Cache, pushed: seq<Input>, limit: nat, i: nat, validate: bool)
    requires Holds(f, cache, pushed, limit) && i < |pushed| && |pushed| * INDEX_ROW_BYTES <= U64_MAX
    requires f.CodecLawful() && f.JsonSafe(pushed[i].metadata)
    ensures cache.sampleCount == |pushed|
    ensures ReadSample(f, cache, i, validate).Ok?
    ensures ReadSample(f, cache, i, validate).value.0 == pushed[i].data
    ensures |ReadSample(f, cache, i, validate).value.1| == |cache.schema|
    ensures RowToObject(cache.schema, ReadSample(f, cache, i, validate).value.1) == pushed[i].metadata
  {
    var index: seq<IndexEntry>, records: seq<Encoded> :| HoldsAt(f, cache, pushed, limit, index, records);
    ReadPlaced(f, cache, i, validate, index, records[i]);
    DecodeEncoded(f, cache.compression, cache.schema, cache.metadataRows[i], pushed[i], records[i],
                  cache.shards[index[i].shardId].uncompressed);
  }

  /** Past its last sample a cache reads nothing. */
  lemma ReadPastEnd(f: Foreign, cache: Cache, pushed: seq<Input>, limit: nat, i: nat, validate: bool)
    requires Holds(f, cache, pushed, limit) && i >= |pushed| && |pushed| * INDEX_ROW_BYTES <= U64_MAX
    ensures ReadSample(f, cache, i, validate) == Err(InvalidCache)
  {
    var index: seq<IndexEntry>, records: seq<Encoded> :| HoldsAt(f, cache, pushed, limit, index, records);
    IndexRoundTrip(index, i);
  }

  /** A finished cache changes shards only where the next record would have gone over the limit. */
  lemma RotatesOnlyWhenFull(index: seq<IndexEntry>, files: seq<bytes>, limit: nat, i: nat)
    requires Tiling(index, files, limit) && i + 1 < |index|
    ensures index[i + 1].shardId == index[i].shardId || index[i + 1].shardId == index[i].shardId + 1
    ensures index[i + 1].shardId != index[i].shardId ==>
      index[i].shardId < |files| && |files[index[i].shardId]| + index[i + 1].byteLen > limit
    ensures index[i + 1].shardId == index[i].shardId ==> |files[index[i].shardId]| <= limit
  {
    assert Follows(index[i], index[i + 1], files, limit);
    assert InShard(index[i], files) && InShard(index[i + 1], files) && WithinLimit(index[i], files, limit);
  }

  /** Whatever is read lies within its shard as the manifest gives it, and agrees with the metadata on demand. */
  lemma ReadsInBounds(f: Foreign, cache: Cache, i: nat, validate: bool)
    requires ReadSample(f, cache, i, validate).Ok?
    ensures IndexGet(cache.indexFile, i).Ok?
    ensures var e := IndexGet(cache.indexFile, i).value;
            && e.shardId < |cache.shards| && e.shardId < |cache.files|
            && e.offset + e.byteLen <= cache.shards[e.shardId].byteLen
            && e.offset + e.byteLen <= |cache.files[e.shardId]|
    ensures validate ==> i < |cache.metadataRows| && ReadSample(f, cache, i, validate).value.1 == cache.metadataRows[i]
  {
  }

  // ---------------------------------------------------------------- a cache that cannot be finished

  /** A small sample fits a builder that is still nearly empty. */
  lemma SmallSampleAccepted(b: CacheBuilder, metadata: Object)
    requires b.f.KeysLawful() && b.schema == [] && b.compression == Plain && b.maxShardBytes == 1_000_000
    requires b.current.byteLen <= 10_000 && b.current.uncompressed <= 10_000
    requires |b.f.toJson(metadata)| <= 1_000
    ensures b.Accepts([], metadata)
  {
    var schema := FirstSchema(b.f, metadata);
    var row := Extract(metadata, schema);
    assert ObjectToRow(schema, metadata) == Some(row);
    ObjectRoundTripsRow(schema, metadata);
    var json := b.f.toJson(metadata);
    assert EncodeSampleRecord(b.f, [], schema, row) == Ok(ToLittleEndian(|json|, 8) + json + []);
  }

  lemma SmallRecord(f: Foreign, schema: seq<Field>, row: seq<Value>, input: Input, encoded: Encoded)
    requires EncodedFrom(f, Plain, schema, row, input, encoded) && input.data == [] && DistinctNames(schema)
    requires |f.toJson(input.metadata)| <= 1_000
    ensures |encoded.record| <= 1_008 && encoded.raw <= 1_008
  {
    ObjectRoundTripsRow(SchemaOf(schema, row), input.metadata);
    var json := f.toJson(input.metadata);
    assert EncodeSampleRecord(f, [], SchemaOf(schema, row), row) == Ok(ToLittleEndian(|json|, 8) + json + []);
  }

  lemma Unfinishable(b: CacheBuilder)
    requires b.Valid() && |b.pushed| >= 2 && b.pushed[0].metadata == map[] && b.pushed[1].metadata != map[]
    ensures !AllFit(b.schema, b.metadataRows)
  {
    RowsFitExactly(b.f, b.compression, b.schema, b.metadataRows, b.pushed, b.records);
    assert EncodedFrom(b.f, b.compression, b.schema, b.metadataRows[1], b.pushed[1], b.records[1]);
    assert |b.pushed[1].metadata| != 0;
  }

  /** A sample without metadata is accepted and fixes nothing. */
  method PushBare(b: CacheBuilder)
    requires b.Valid() && b.f.KeysLawful() && b.schema == [] && b.compression == Plain && b.maxShardBytes == 1_000_000
    requires b.current.byteLen == 0 && b.current.uncompressed == 0 && |b.f.toJson(map[])| <= 1_000
    modifies b
    ensures b.Valid() && b.pushed == old(b.pushed) + [Input([], map[])] && b.schema == []
    ensures b.current.byteLen <= 1_008 && b.current.uncompressed <= 1_008
  {
    SmallSampleAccepted(b, map[]);
    var pushed := b.PushSample([], map[]);
    var last := |b.records| - 1;
    assert EncodedFrom(b.f, b.compression, b.schema, b.metadataRows[last], b.pushed[last], b.records[last]);
    SmallRecord(b.f, b.schema, b.metadataRows[last], b.pushed[last], b.records[last]);
  }

  /** A sample with one key is accepted after it and fixes the schema. */
  method PushLabelled(b: CacheBuilder, metadata: Object)
    requires b.Valid() && b.f.KeysLawful() && b.schema == [] && b.compression == Plain && b.maxShardBytes == 1_000_000
    requires b.current.byteLen <= 1_008 && b.current.uncompressed <= 1_008 && |b.f.toJson(metadata)| <= 1_000
    modifies b
    ensures b.Valid() && b.pushed == old(b.pushed) + [Input([], metadata)]
  {
    SmallSampleAccepted(b, metadata);
    var pushed := b.PushSample([], metadata);
  }

  method BareThenLabelled(f: Foreign, labelled: Object) returns (b: CacheBuilder)
    requires f.KeysLawful() && |f.toJson(map[])| <= 1_000 && |f.toJson(labelled)| <= 1_000
    ensures b.Valid() && b.pushed == [Input([], map[]), Input([], labelled)] && fresh(b)
  {
    b := new CacheBuilder(f, Plain, 1_000_000);
    PushBare(b);
    PushLabelled(b, labelled);
  }

  /**
   "All rows fit the schema" after every push fails on this input: a sample without metadata and then any
   one with metadata are both accepted, the schema is fixed by the second, and `finish` refuses the cache.
   Only the JSON of these two objects has to be short.
   */
  method EmptyMetadataFirst(f: Foreign, labelled: Object) returns (b: CacheBuilder, finished: Result<Cache>)
    requires f.KeysLawful() && labelled != map[]
    requires |f.toJson(map[])| <= 1_000 && |f.toJson(labelled)| <= 1_000
    ensures b.Valid() && b.pushed == [Input([], map[]), Input([], labelled)]
    ensures !AllFit(b.schema, b.metadataRows) && finished.Err?
  {
    b := BareThenLabelled(f, labelled);
    Unfinishable(b);
    finished := b.Finish(true);
  }
}
