/** Versioned cache manifests and their JSON form, where a repeated field is a parse error. */
module Manifests {
  import opened Common

  datatype Json = Num(n: nat) | Text(s: string) | Scopes(whole: seq<bool>)

  /** A parsed JSON object; `repeated` records that some field name occurred twice in the text. */
  datatype JsonObject = JsonObject(fields: map<string, Json>, repeated: bool)

  /** Names of the storage fields every version carries. */
  const KNOWN: set<string> :=
    {"source_name", "sample_count", "metadata_schema", "metadata_sha256", "index_sha256", "shards"}

  /** Storage fields, with application extensions kept verbatim. */
  datatype Fields = Fields(known: map<string, Json>, extra: map<string, Json>)

  datatype Manifest = V2(fields: Fields) | V3(id: u64, fields: Fields) | V4(id: u64, fields: Fields) {

    predicate WholeRecord() { V4? }

    /** `resolve_cache_id`: only v2 takes its identity from the list position. */
    function ResolveId(position: u64): u64 { if V2? then position else id }

    /** `into_v3`: a v2 extension called `cache_id` would collide with the new field, so it goes. */
    function IntoV3(cacheId: u64): (r: Manifest)
      ensures !r.V2?
    {
      if V2? then V3(cacheId, fields.(extra := fields.extra - {"cache_id"})) else this
    }
  }

  function Merge(a: map<string, Json>, b: map<string, Json>): (r: JsonObject) {
    JsonObject(a + b, a.Keys * b.Keys != {})
  }

  function Flatten(head: map<string, Json>, f: Fields): (r: JsonObject) {
    var body := Merge(f.known, f.extra);
    var all := Merge(head, body.fields);
    JsonObject(all.fields, body.repeated || all.repeated)
  }

  /** Serialization flattens version, identity, storage fields and extensions into one object. */
  function Serialize(m: Manifest): (r: JsonObject) {
    match m
    case V2(f) => Flatten(map["format_version" := Num(2)], f)
    case V3(id, f) => Flatten(map["format_version" := Num(3), "cache_id" := Num(id)], f)
    case V4(id, f) => Flatten(map["format_version" := Num(4), "cache_id" := Num(id)], f)
  }

  /** Every shard's compression scope must agree with the version. */
  predicate ScopeAgrees(m: Manifest) {
    && "shards" in m.fields.known
    && m.fields.known["shards"].Scopes?
    && forall i :: 0 <= i < |m.fields.known["shards"].whole| ==> m.fields.known["shards"].whole[i] == m.WholeRecord()
  }

  /** Split an object's body into storage fields and extensions. */
  function BodyFields(body: map<string, Json>): (r: Fields) {
    Fields(map k | k in body && k in KNOWN :: body[k], body - KNOWN)
  }

  /** Parsing dispatches on the version; `cache_id` is a field of v3 and v4 and an extension of v2. */
  function Parse(o: JsonObject): (r: Result<Manifest>) {
    if o.repeated || "format_version" !in o.fields || !o.fields["format_version"].Num? then Err(InvalidCache)
    else
      var version, body := o.fields["format_version"].n, o.fields - {"format_version"};
      if !(KNOWN <= body.Keys) then Err(InvalidCache)
      else if version == 2 then Checked(V2(BodyFields(body)))
      else if version != 3 && version != 4 then Err(InvalidCache)
      else if "cache_id" !in body || !body["cache_id"].Num? || body["cache_id"].n > U64_MAX then Err(InvalidCache)
      else
        var id, fields := body["cache_id"].n, BodyFields(body - {"cache_id"});
        Checked(if version == 3 then V3(id, fields) else V4(id, fields))
  }

  function Checked(m: Manifest): (r: Result<Manifest>) {
    if ScopeAgrees(m) then Ok(m) else Err(InvalidCache)
  }

  /** The manifests that parsing can produce. */
  ghost predicate WellFormed(m: Manifest) {
    && m.fields.known.Keys == KNOWN
    && m.fields.extra.Keys !! KNOWN
    && "format_version" !in m.fields.extra
    && (!m.V2? ==> "cache_id" !in m.fields.extra)
    && ScopeAgrees(m)
  }

  lemma ParseIsWellFormed(o: JsonObject)
    requires Parse(o).Ok?
    ensures WellFormed(Parse(o).value)
  {
    var body := o.fields - {"format_version"};
    assert "format_version" !in KNOWN && "cache_id" !in KNOWN;
    BodySplit(body);
    BodySplit(body - {"cache_id"});
  }

  lemma BodySplit(body: map<string, Json>)
    requires KNOWN <= body.Keys
    ensures BodyFields(body).known.Keys == KNOWN && BodyFields(body).extra.Keys == body.Keys - KNOWN
  {
  }

  lemma BodyRestores(known: map<string, Json>, extra: map<string, Json>)
    requires known.Keys == KNOWN && extra.Keys !! KNOWN
    ensures BodyFields(known + extra) == Fields(known, extra)
  {
    assert (map k | k in known + extra && k in KNOWN :: (known + extra)[k]) == known;
    assert (known + extra) - KNOWN == extra;
  }

  /** Well-formed manifests survive the trip through JSON: no version loses or repeats a field. */
  lemma SerializeRoundTrip(m: Manifest)
    requires WellFormed(m)
    ensures Parse(Serialize(m)) == Ok(m)
  {
    var f := m.fields;
    assert "format_version" !in KNOWN && "cache_id" !in KNOWN;
    assert f.known.Keys * f.extra.Keys == {};
    BodyRestores(f.known, f.extra);
    if m.V2? {
      SerializeV2(f);
    } else {
      SerializeIdentified(if m.V3? then 3 else 4, m.id, f);
    }
  }

  lemma SerializeV2(f: Fields)
    requires f.known.Keys == KNOWN && f.extra.Keys !! KNOWN && "format_version" !in f.extra
    ensures var o := Flatten(map["format_version" := Num(2)], f);
            && !o.repeated && o.fields - {"format_version"} == f.known + f.extra
            && "format_version" in o.fields && o.fields["format_version"] == Num(2)
  {
    var head := map["format_version" := Num(2)];
    assert head.Keys == {"format_version"} && "format_version" !in KNOWN;
    assert f.known.Keys * f.extra.Keys == {};
    assert head.Keys * (f.known + f.extra).Keys == {};
  }

  lemma SerializeIdentified(version: nat, id: u64, f: Fields)
    requires f.known.Keys == KNOWN && f.extra.Keys !! KNOWN
    requires "format_version" !in f.extra && "cache_id" !in f.extra
    ensures var o := Flatten(map["format_version" := Num(version), "cache_id" := Num(id)], f);
            && !o.repeated && "format_version" in o.fields && o.fields["format_version"] == Num(version)
            && "cache_id" in o.fields - {"format_version"} && (o.fields - {"format_version"})["cache_id"] == Num(id)
            && KNOWN <= (o.fields - {"format_version"}).Keys
            && o.fields - {"format_version"} - {"cache_id"} == f.known + f.extra
  {
    var head := map["format_version" := Num(version), "cache_id" := Num(id)];
    assert head.Keys == {"format_version", "cache_id"} && "format_version" !in KNOWN && "cache_id" !in KNOWN;
    assert f.known.Keys * f.extra.Keys == {};
    assert head.Keys * (f.known + f.extra).Keys == {};
  }

  /** Upgrading keeps every storage field and extension, takes on the given identity, and stays parseable. */
  lemma UpgradeIsWellFormed(m: Manifest, id: u64)
    requires WellFormed(m)
    ensures WellFormed(m.IntoV3(id)) && Parse(Serialize(m.IntoV3(id))) == Ok(m.IntoV3(id))
    ensures m.IntoV3(id).fields.known == m.fields.known
    ensures m.IntoV3(id).ResolveId(0) == if m.V2? then id else m.id
    ensures m.IntoV3(id).IntoV3(id) == m.IntoV3(id)
  {
    SerializeRoundTrip(m.IntoV3(id));
  }

  /**
   On the JSON itself: upgrading a v2 manifest changes the version, sets the identity, and leaves every other
   field, known or extension, exactly as it was; a manifest that has an identity is written back unchanged.
   */
  lemma UpgradeKeepsJson(o: JsonObject, id: u64)
    requires Parse(o).Ok?
    ensures Serialize(Parse(o).value.IntoV3(id)).fields ==
      if Parse(o).value.V2? then o.fields["format_version" := Num(3)]["cache_id" := Num(id)] else o.fields
  {
    var m := Parse(o).value;
    ParseIsWellFormed(o);
    assert "format_version" !in KNOWN && "cache_id" !in KNOWN;
    var body := o.fields - {"format_version"};
    if m.V2? {
      BodyJoins(body);
      UpgradedBody(m.fields, body, id);
    } else {
      BodyJoins(body - {"cache_id"});
      IdentifiedBody(if m.V3? then 3 else 4, m.id, m.fields, o.fields);
    }
  }

  lemma BodyJoins(body: map<string, Json>)
    ensures BodyFields(body).known + BodyFields(body).extra == body
  {
  }

  lemma UpgradedBody(f: Fields, body: map<string, Json>, id: u64)
    requires f.known + f.extra == body && "format_version" !in body && f.known.Keys !! f.extra.Keys
    requires "cache_id" !in f.known
    ensures Flatten(map["format_version" := Num(3), "cache_id" := Num(id)], f.(extra := f.extra - {"cache_id"})).fields
            == body["format_version" := Num(3)]["cache_id" := Num(id)]
  {
  }

  lemma IdentifiedBody(version: nat, id: u64, f: Fields, fields: map<string, Json>)
    requires f.known + f.extra == fields - {"format_version"} - {"cache_id"}
    requires "format_version" in fields && fields["format_version"] == Num(version)
    requires "cache_id" in fields && fields["cache_id"] == Num(id)
    ensures Flatten(map["format_version" := Num(version), "cache_id" := Num(id)], f).fields == fields
  {
  }

  /** The version decides the record layout, and shards compressed the other way are refused. */
  lemma ScopeMismatchRefused(o: JsonObject, i: nat)
    requires "shards" in o.fields && o.fields["shards"].Scopes? && i < |o.fields["shards"].whole|
    requires "format_version" in o.fields && o.fields["format_version"].Num?
    requires o.fields["shards"].whole[i] != (o.fields["format_version"].n == 4)
    ensures Parse(o).Err?
  {
  }

  /** Repeated fields, unknown versions, missing storage fields and missing identities are all refused. */
  lemma MalformedRefused(o: JsonObject)
    ensures o.repeated || !(KNOWN <= o.fields.Keys) ==> Parse(o).Err?
    ensures Parse(o).Ok? ==> "format_version" in o.fields && o.fields["format_version"] in {Num(2), Num(3), Num(4)}
    ensures Parse(o).Ok? && o.fields["format_version"] != Num(2) ==>
      "cache_id" in o.fields && o.fields["cache_id"] == Num(Parse(o).value.id)
  {
    assert "format_version" !in KNOWN && "cache_id" !in KNOWN;
  }

  /** Only v2 takes its identity from the list position; a stored identity is kept. */
  lemma IdentityRules(m: Manifest, position: u64)
    ensures m.ResolveId(position) == if m.V2? then position else m.id
    ensures !m.V2? ==> m.IntoV3(position) == m
  {
  }
}
