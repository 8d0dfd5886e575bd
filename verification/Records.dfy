/**
 The bytes of a cache: little-endian integers, index rows, and sample records in both layouts.

 Codecs and JSON are foreign code. They enter as functions, together with the round trips that are
 assumed of them; everything around them (size prefixes, length guards, envelopes) is modelled.
 */
module Records {
  import opened Common

  type byte = x: int | 0 <= x < 256
  type bytes = seq<byte>

  // ---------------------------------------------------------------- little-endian integers

  function Power256(width: nat): (r: nat)
    ensures r >= 1
  {
    if width == 0 then 1 else 256 * Power256(width - 1)
  }

  function ToLittleEndian(n: nat, width: nat): (r: bytes)
    ensures |r| == width
  {
    if width == 0 then [] else [n % 256] + ToLittleEndian(n / 256, width - 1)
  }

  function FromLittleEndian(b: bytes): (r: nat) {
    if b == [] then 0 else b[0] + 256 * FromLittleEndian(b[1..])
  }

  lemma {:induction false} LittleEndianRoundTrip(n: nat, width: nat)
    requires n < Power256(width)
    ensures FromLittleEndian(ToLittleEndian(n, width)) == n
    decreases width
  {
    if width > 0 {
      LittleEndianRoundTrip(n / 256, width - 1);
      assert ToLittleEndian(n, width)[1..] == ToLittleEndian(n / 256, width - 1);
    }
  }

  lemma WordSizes()
    ensures Power256(4) == 0x1_0000_0000 && Power256(8) == 0x1_0000_0000_0000_0000
  {
    assert Power256(2) == 0x1_0000;
    assert Power256(4) == 256 * 256 * Power256(2);
    assert Power256(6) == 256 * 256 * Power256(4);
    assert Power256(8) == 256 * 256 * Power256(6);
  }

  /** `read_u64`. */
  function ReadU64(b: bytes): (r: Result<nat>) {
    if |b| != 8 then Err(InvalidCache) else Ok(FromLittleEndian(b))
  }

  lemma U64RoundTrip(n: u64)
    ensures ReadU64(ToLittleEndian(n, 8)) == Ok(n)
  {
    WordSizes();
    LittleEndianRoundTrip(n, 8);
  }

  // ---------------------------------------------------------------- index rows

  const INDEX_ROW_BYTES: nat := 24

  datatype IndexEntry = IndexEntry(shardId: u64, offset: u64, byteLen: u64)

  function IndexRow(e: IndexEntry): (r: bytes)
    ensures |r| == INDEX_ROW_BYTES
  {
    ToLittleEndian(e.shardId, 8) + ToLittleEndian(e.offset, 8) + ToLittleEndian(e.byteLen, 8)
  }

  /** `write_index_file`. */
  function IndexFile(index: seq<IndexEntry>): (r: bytes)
    ensures |r| == INDEX_ROW_BYTES * |index|
  {
    if index == [] then [] else IndexFile(index[..|index| - 1]) + IndexRow(index[|index| - 1])
  }

  /** `read_index_entry`; a row of any other width is refused. */
  function ReadIndexEntry(row: bytes): (r: Result<IndexEntry>) {
    if |row| < INDEX_ROW_BYTES then Err(InvalidCache)
    else
      var shard, offset, len := FromLittleEndian(row[..8]), FromLittleEndian(row[8..16]), FromLittleEndian(row[16..24]);
      if shard > U64_MAX || offset > U64_MAX || len > U64_MAX then Err(InvalidCache)
      else Ok(IndexEntry(shard, offset, len))
  }

  /** `MappedIndex::get`: the byte address is checked before the row is sliced. */
  function IndexGet(file: bytes, position: nat): (r: Result<IndexEntry>) {
    var start := position * INDEX_ROW_BYTES;
    if start > U64_MAX || start > |file| || |file| - start < INDEX_ROW_BYTES then Err(InvalidCache)
    else ReadIndexEntry(file[start..start + INDEX_ROW_BYTES])
  }

  lemma RowRoundTrip(e: IndexEntry)
    ensures ReadIndexEntry(IndexRow(e)) == Ok(e)
  {
    var row := IndexRow(e);
    assert row[..8] == ToLittleEndian(e.shardId, 8);
    assert row[8..16] == ToLittleEndian(e.offset, 8);
    assert row[16..24] == ToLittleEndian(e.byteLen, 8);
    U64RoundTrip(e.shardId);
    U64RoundTrip(e.offset);
    U64RoundTrip(e.byteLen);
  }

  lemma {:induction false} RowPosition(index: seq<IndexEntry>, i: nat)
    requires i < |index|
    ensures IndexFile(index)[i * INDEX_ROW_BYTES..(i + 1) * INDEX_ROW_BYTES] == IndexRow(index[i])
    decreases |index|
  {
    var last := |index| - 1;
    if i < last {
      RowPosition(index[..last], i);
      assert IndexFile(index)[i * INDEX_ROW_BYTES..(i + 1) * INDEX_ROW_BYTES]
          == IndexFile(index[..last])[i * INDEX_ROW_BYTES..(i + 1) * INDEX_ROW_BYTES];
    }
  }

  /** Reading a written index returns exactly its entries, and nothing past its end. */
  lemma IndexRoundTrip(index: seq<IndexEntry>, i: nat)
    requires |index| * INDEX_ROW_BYTES <= U64_MAX
    ensures |IndexFile(index)| / INDEX_ROW_BYTES == |index|
    ensures IndexGet(IndexFile(index), i) == if i < |index| then Ok(index[i]) else Err(InvalidCache)
  {
    if i < |index| {
      RowPosition(index, i);
      RowRoundTrip(index[i]);
    }
  }

  // ---------------------------------------------------------------- compression envelopes

  datatype Compression = LegacyPlain | LegacyLz4 | Plain | Lz4Fast | Lz4Hc | Brotli {

    /** Only the modern policies compress metadata and payload together. */
    predicate WholeRecord() { !LegacyPlain? && !LegacyLz4? }

    predicate Compressed() { !LegacyPlain? && !Plain? }
  }

  datatype Value = Bool(bool) | Int(int) | Float(real) | Text(text: string)

  datatype Kind = BoolKind | IntKind | FloatKind | TextKind

  function KindOf(v: Value): Kind {
    match v
    case Bool(_) => BoolKind
    case Int(_) => IntKind
    case Float(_) => FloatKind
    case Text(_) => TextKind
  }

  type Object = map<string, Value>

  /** Foreign code: codec bodies, JSON, the key order of a sorted map and the encoded length of a string. */
  datatype Foreign = Foreign(
    accepts: (Compression, bytes) -> bool,
    encodeBody: (Compression, bytes) -> bytes,
    decodeBody: (Compression, bytes) -> Option<bytes>,
    toJson: Object -> bytes,
    fromJson: bytes -> Option<Object>,
    keyOrder: set<string> -> seq<string>,
    utf8Len: string -> nat)
  {
    /** The codec round trip. */
    ghost predicate CodecLawful() { forall c, b :: decodeBody(c, encodeBody(c, b)) == Some(b) }

    /** A sorted map lists each of its keys once. */
    ghost predicate KeysLawful() { forall keys :: NoDuplicates(keyOrder(keys)) && Elements(keyOrder(keys)) == keys }

    /** The JSON round trip, asked only of objects that are actually written. */
    ghost predicate JsonSafe(o: Object) { fromJson(toJson(o)) == Some(o) }
  }

  /** `compress_payload`: compressed forms carry their exact decoded size in a 4-byte prefix. */
  function CompressPayload(f: Foreign, c: Compression, data: bytes): (r: Result<bytes>)
    ensures r.Ok? && c.Compressed() ==> |r.value| >= 4
    ensures r.Ok? && !c.Compressed() ==> r.value == data
  {
    if !c.Compressed() then Ok(data)
    else if |data| > U32_MAX || !f.accepts(c, data) then Err(InvalidInput)
    else Ok(ToLittleEndian(|data|, 4) + f.encodeBody(c, data))
  }

  /** `decompress_payload`: the size prefix is checked against the shard total before decoding. */
  function DecompressPayload(f: Foreign, c: Compression, data: bytes, maxLen: nat): (r: Result<bytes>) {
    if !c.Compressed() then Ok(data)
    else if |data| < 4 then Err(InvalidCache)
    else
      var len := FromLittleEndian(data[..4]);
      if len > maxLen then Err(InvalidCache)
      else match f.decodeBody(c, data[4..])
        case None => Err(InvalidCache)
        case Some(out) => if |out| != len then Err(InvalidCache) else Ok(out)
  }

  /** The size guard rejects a stored payload exactly when the limit is below its own length. */
  lemma PayloadRoundTrip(f: Foreign, c: Compression, data: bytes, maxLen: nat)
    requires f.CodecLawful() && CompressPayload(f, c, data).Ok?
    ensures var stored := CompressPayload(f, c, data).value;
            DecompressPayload(f, c, stored, maxLen) ==
            if c.Compressed() && |data| > maxLen then Err(InvalidCache) else Ok(data)
  {
    if c.Compressed() {
      var stored := CompressPayload(f, c, data).value;
      assert stored[..4] == ToLittleEndian(|data|, 4);
      assert stored[4..] == f.encodeBody(c, data);
      WordSizes();
      LittleEndianRoundTrip(|data|, 4);
    }
  }

  // ---------------------------------------------------------------- metadata rows

  datatype Field = Field(name: string, kind: Kind)

  ghost predicate DistinctNames(schema: seq<Field>) {
    forall i, j :: 0 <= i < j < |schema| ==> schema[i].name != schema[j].name
  }

  /** `metadata_row_to_object`: later fields of the same name would win. */
  function RowToObject(schema: seq<Field>, row: seq<Value>): (r: Object)
    requires |row| == |schema|
  {
    if schema == [] then map[]
    else
      var last := |schema| - 1;
      RowToObject(schema[..last], row[..last])[schema[last].name := row[last]]
  }

  predicate HasField(o: Object, field: Field) {
    field.name in o && KindOf(o[field.name]) == field.kind
  }

  predicate HasFields(o: Object, schema: seq<Field>) {
    forall i :: 0 <= i < |schema| ==> HasField(o, schema[i])
  }

  /** The values of the schema's fields, in schema order. */
  function Extract(o: Object, schema: seq<Field>): (r: seq<Value>)
    requires HasFields(o, schema)
    ensures |r| == |schema| && forall i :: 0 <= i < |r| ==> r[i] == o[schema[i].name]
  {
    if schema == [] then [] else Extract(o, schema[..|schema| - 1]) + [o[schema[|schema| - 1].name]]
  }

  /** `metadata_object_to_row`, and the same check on the writing side. */
  function ObjectToRow(schema: seq<Field>, o: Object): (r: Option<seq<Value>>)
    ensures r.Some? ==> |r.value| == |schema|
  {
    if |o| != |schema| || !HasFields(o, schema) then None
    else Some(Extract(o, schema))
  }

  ghost function Names(schema: seq<Field>): set<string> {
    if schema == [] then {} else Names(schema[..|schema| - 1]) + {schema[|schema| - 1].name}
  }

  lemma {:induction false} NamesOf(schema: seq<Field>, name: string)
    ensures name in Names(schema) <==> exists i :: 0 <= i < |schema| && schema[i].name == name
    decreases |schema|
  {
    if schema != [] {
      NamesOf(schema[..|schema| - 1], name);
    }
  }

  lemma {:induction false} RowKeys(schema: seq<Field>, row: seq<Value>)
    requires |row| == |schema| && DistinctNames(schema)
    ensures RowToObject(schema, row).Keys == Names(schema) && |RowToObject(schema, row)| == |schema|
    decreases |schema|
  {
    if schema != [] {
      var last := |schema| - 1;
      RowKeys(schema[..last], row[..last]);
      NamesOf(schema[..last], schema[last].name);
      assert RowToObject(schema, row).Keys == RowToObject(schema[..last], row[..last]).Keys + {schema[last].name};
    }
  }

  lemma {:induction false} RowValue(schema: seq<Field>, row: seq<Value>, i: nat)
    requires |row| == |schema| && DistinctNames(schema) && i < |schema|
    ensures var o := RowToObject(schema, row); schema[i].name in o && o[schema[i].name] == row[i]
    decreases |schema|
  {
    var last := |schema| - 1;
    if i < last {
      RowValue(schema[..last], row[..last], i);
    }
  }

  /** A row that fits its schema survives the trip through an object. */
  lemma RowRoundTripsObject(schema: seq<Field>, row: seq<Value>)
    requires DistinctNames(schema) && |row| == |schema|
    requires forall i :: 0 <= i < |row| ==> KindOf(row[i]) == schema[i].kind
    ensures ObjectToRow(schema, RowToObject(schema, row)) == Some(row)
  {
    var o := RowToObject(schema, row);
    RowKeys(schema, row);
    forall i | 0 <= i < |schema| ensures HasField(o, schema[i]) && o[schema[i].name] == row[i] {
      RowValue(schema, row, i);
    }
    assert Extract(o, schema) == row;
  }

  /** An object accepted by a schema of its own size is recovered from its row. */
  lemma ObjectRoundTripsRow(schema: seq<Field>, o: Object)
    requires DistinctNames(schema) && ObjectToRow(schema, o).Some?
    ensures RowToObject(schema, ObjectToRow(schema, o).value) == o
  {
    var row := ObjectToRow(schema, o).value;
    var back := RowToObject(schema, row);
    RowKeys(schema, row);
    forall name | name in back ensures name in o && o[name] == back[name] {
      NamesOf(schema, name);
      var i :| 0 <= i < |schema| && schema[i].name == name;
      RowValue(schema, row, i);
      assert HasField(o, schema[i]);
    }
    assert back.Keys <= o.Keys;
    SubsetSize(back.Keys, o.Keys);
    assert |back.Keys| == |back| && |o.Keys| == |o|;
  }

  // ---------------------------------------------------------------- sample records

  const RECORD_METADATA_LEN_BYTES: nat := 8

  /** `encode_sample_record`: metadata length, metadata, then the payload. */
  function EncodeSampleRecord(f: Foreign, payload: bytes, schema: seq<Field>, row: seq<Value>): (r: Result<bytes>)
    ensures r.Ok? ==> |r.value| >= RECORD_METADATA_LEN_BYTES
  {
    if |row| != |schema| then Err(InvalidInput)
    else
      var json := f.toJson(RowToObject(schema, row));
      if RECORD_METADATA_LEN_BYTES + |json| + |payload| > U64_MAX then Err(InvalidInput)
      else Ok(ToLittleEndian(|json|, 8) + json + payload)
  }

  /** `split_sample_record`. */
  function SplitSampleRecord(f: Foreign, record: bytes, schema: seq<Field>): (r: Result<(seq<Value>, bytes)>) {
    if |record| < RECORD_METADATA_LEN_BYTES then Err(InvalidCache)
    else
      var start := RECORD_METADATA_LEN_BYTES + FromLittleEndian(record[..8]);
      if start > U64_MAX || start > |record| then Err(InvalidCache)
      else match f.fromJson(record[8..start])
        case None => Err(InvalidCache)
        case Some(o) =>
          match ObjectToRow(schema, o)
          case None => Err(InvalidCache)
          case Some(row) => Ok((row, record[start..]))
  }

  predicate Fits(schema: seq<Field>, row: seq<Value>) {
    |row| == |schema| && forall i :: 0 <= i < |row| ==> KindOf(row[i]) == schema[i].kind
  }

  lemma EnvelopeRoundTrip(f: Foreign, payload: bytes, schema: seq<Field>, row: seq<Value>)
    requires DistinctNames(schema) && Fits(schema, row) && f.JsonSafe(RowToObject(schema, row))
    requires EncodeSampleRecord(f, payload, schema, row).Ok?
    ensures SplitSampleRecord(f, EncodeSampleRecord(f, payload, schema, row).value, schema) == Ok((row, payload))
  {
    var json := f.toJson(RowToObject(schema, row));
    var record := EncodeSampleRecord(f, payload, schema, row).value;
    U64RoundTrip(|json|);
    assert record[..8] == ToLittleEndian(|json|, 8);
    assert record[8..8 + |json|] == json;
    assert record[8 + |json|..] == payload;
    RowRoundTripsObject(schema, row);
  }

  /** Stored bytes of a sample, with the uncompressed size its shard accounts for. */
  datatype Encoded = Encoded(record: bytes, raw: nat)

  /** `encode_stored_record`: v4 compresses the whole envelope, v3 only the payload inside it. */
  function EncodeStoredRecord(
    f: Foreign, c: Compression, data: bytes, schema: seq<Field>, row: seq<Value>): (r: Result<Encoded>)
    ensures r.Ok? ==> |r.value.record| > 0
  {
    if c.WholeRecord() then
      match EncodeSampleRecord(f, data, schema, row)
      case Err(e) => Err(e)
      case Ok(envelope) =>
        match CompressPayload(f, c, envelope)
        case Err(e) => Err(e)
        case Ok(record) => Ok(Encoded(record, |envelope|))
    else
      match CompressPayload(f, c, data)
      case Err(e) => Err(e)
      case Ok(payload) =>
        match EncodeSampleRecord(f, payload, schema, row)
        case Err(e) => Err(e)
        case Ok(record) => Ok(Encoded(record, |data|))
  }

  /** `decode_stored_record`: the manifest version chooses the layout, the shard its codec and limit. */
  function DecodeStoredRecord(
    f: Foreign, c: Compression, wholeRecord: bool, maxLen: nat, schema: seq<Field>, record: bytes)
    : (r: Result<(bytes, seq<Value>)>)
  {
    if wholeRecord then
      match (if c.Compressed() then DecompressPayload(f, c, record, maxLen) else Ok(record))
      case Err(e) => Err(e)
      case Ok(envelope) =>
        match SplitSampleRecord(f, envelope, schema)
        case Err(e) => Err(e)
        case Ok((row, payload)) => Ok((payload, row))
    else
      match SplitSampleRecord(f, record, schema)
      case Err(e) => Err(e)
      case Ok((row, payload)) =>
        match DecompressPayload(f, c, payload, maxLen)
        case Err(e) => Err(e)
        case Ok(data) => Ok((data, row))
  }

  /**
   Both layouts give back the payload and the metadata that were stored, and the size guard never
   refuses a record whose raw size is within the shard's total.
   */
  lemma RecordRoundTrip(f: Foreign, c: Compression, data: bytes, schema: seq<Field>, row: seq<Value>, maxLen: nat)
    requires f.CodecLawful() && DistinctNames(schema) && Fits(schema, row) && f.JsonSafe(RowToObject(schema, row))
    requires EncodeStoredRecord(f, c, data, schema, row).Ok?
    requires EncodeStoredRecord(f, c, data, schema, row).value.raw <= maxLen
    ensures var stored := EncodeStoredRecord(f, c, data, schema, row).value.record;
            DecodeStoredRecord(f, c, c.WholeRecord(), maxLen, schema, stored) == Ok((data, row))
  {
    if c.WholeRecord() {
      PayloadRoundTrip(f, c, EncodeSampleRecord(f, data, schema, row).value, maxLen);
      EnvelopeRoundTrip(f, data, schema, row);
    } else {
      PayloadRoundTrip(f, c, data, maxLen);
      EnvelopeRoundTrip(f, CompressPayload(f, c, data).value, schema, row);
    }
  }

  // ---------------------------------------------------------------- the bytes themselves

  /** Little-endian: the lowest byte first. */
  lemma LittleEndianBytes(n: nat, width: nat)
    requires width > 0
    ensures ToLittleEndian(n, width)[0] == n % 256
    ensures ToLittleEndian(n, width)[1..] == ToLittleEndian(n / 256, width - 1)
    ensures ToLittleEndian(0x04030201, 4) == [1, 2, 3, 4]
  {
    assert ToLittleEndian(0x04030201, 4) == [1] + ToLittleEndian(0x040302, 3);
    assert ToLittleEndian(0x040302, 3) == [2] + ToLittleEndian(0x0403, 2);
    assert ToLittleEndian(0x0403, 2) == [3] + ToLittleEndian(0x04, 1);
    assert ToLittleEndian(0x04, 1) == [4] + ToLittleEndian(0, 0);
  }

  /** An index row is three 64-bit words: shard, offset, length. */
  lemma IndexRowBytes(e: IndexEntry, row: bytes)
    requires row == IndexRow(e)
    ensures row[..8] == ToLittleEndian(e.shardId, 8)
    ensures row[8..16] == ToLittleEndian(e.offset, 8)
    ensures row[16..24] == ToLittleEndian(e.byteLen, 8)
  {
  }

  /** Which policies compress at all, and which compress metadata and payload together. */
  lemma CompressionPolicies(c: Compression)
    ensures c.Compressed() <==> c in {LegacyLz4, Lz4Fast, Lz4Hc, Brotli}
    ensures c.WholeRecord() <==> c in {Plain, Lz4Fast, Lz4Hc, Brotli}
  {
  }

  /** A compressed payload: a 32-bit length, then the codec's body; refused only by length or codec. */
  lemma PayloadBytes(f: Foreign, c: Compression, data: bytes)
    ensures CompressPayload(f, c, data).Ok? <==> !c.Compressed() || (|data| <= U32_MAX && f.accepts(c, data))
    ensures CompressPayload(f, c, data).Ok? && c.Compressed() ==>
      var stored := CompressPayload(f, c, data).value;
      stored[..4] == ToLittleEndian(|data|, 4) && stored[4..] == f.encodeBody(c, data)
  {
  }

  /** An envelope: the length of the metadata JSON, the JSON, the payload; refused only by size. */
  lemma EnvelopeBytes(f: Foreign, payload: bytes, schema: seq<Field>, row: seq<Value>)
    requires |row| == |schema|
    ensures var json := f.toJson(RowToObject(schema, row));
            && (EncodeSampleRecord(f, payload, schema, row).Ok? <==> 8 + |json| + |payload| <= U64_MAX)
            && (EncodeSampleRecord(f, payload, schema, row).Ok? ==>
                  var record := EncodeSampleRecord(f, payload, schema, row).value;
                  && |record| == 8 + |json| + |payload|
                  && record[..8] == ToLittleEndian(|json|, 8)
                  && record[8..8 + |json|] == json && record[8 + |json|..] == payload)
  {
  }

  /**
   The two layouts: v4 compresses the envelope as a whole and counts it, v3 leaves the metadata readable,
   compresses the payload alone and counts that.
   */
  lemma LayoutBytes(f: Foreign, c: Compression, data: bytes, schema: seq<Field>, row: seq<Value>)
    requires |row| == |schema| && EncodeStoredRecord(f, c, data, schema, row).Ok?
    ensures var stored, json := EncodeStoredRecord(f, c, data, schema, row).value, f.toJson(RowToObject(schema, row));
            if c.WholeRecord() then
              && stored.raw == 8 + |json| + |data|
              && CompressPayload(f, c, ToLittleEndian(|json|, 8) + json + data) == Ok(stored.record)
            else
              && stored.raw == |data| && |stored.record| >= 8 + |json|
              && stored.record[..8] == ToLittleEndian(|json|, 8) && stored.record[8..8 + |json|] == json
              && CompressPayload(f, c, data) == Ok(stored.record[8 + |json|..])
  {
    if c.WholeRecord() {
      EnvelopeBytes(f, data, schema, row);
    } else {
      EnvelopeBytes(f, CompressPayload(f, c, data).value, schema, row);
    }
  }

  /** Two values are of one kind exactly when they are of one type. */
  lemma KindsTellTypes(v: Value, w: Value)
    ensures KindOf(v) == KindOf(w) <==> (v.Bool? <==> w.Bool?) && (v.Int? <==> w.Int?) && (v.Float? <==> w.Float?)
  {
  }
}
