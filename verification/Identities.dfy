/** Sample identities `(cache_id, sample_id)` against the flat physical index space of a dataset. */
module Identities {
  import opened Common
  import opened PrefixOffsets

  datatype Cache = Cache(id: u64, samples: u64)

  function Counts(caches: seq<Cache>): (r: seq<nat>)
    ensures |r| == |caches| && forall k :: 0 <= k < |r| ==> r[k] == caches[k].samples
  {
    if caches == [] then [] else Counts(caches[..|caches| - 1]) + [caches[|caches| - 1].samples]
  }

  ghost predicate DistinctIds(caches: seq<Cache>) {
    forall i, j :: 0 <= i < j < |caches| ==> caches[i].id != caches[j].id
  }

  ghost predicate IsLookup(caches: seq<Cache>, lookup: map<u64, nat>) {
    && (forall k :: 0 <= k < |caches| ==> caches[k].id in lookup && lookup[caches[k].id] == k)
    && (forall id :: id in lookup ==> lookup[id] < |caches| && caches[lookup[id]].id == id)
  }

  /** `cache_lookup`: refuses exactly the ambiguous lists. */
  method CacheLookup(caches: seq<Cache>) returns (r: Result<map<u64, nat>>)
    ensures r.Ok? <==> DistinctIds(caches)
    ensures r.Ok? ==> IsLookup(caches, r.value)
    ensures r.Err? ==> r.error == InvalidCache
  {
    var lookup: map<u64, nat> := map[];
    for i := 0 to |caches|
      invariant IsLookup(caches[..i], lookup) && DistinctIds(caches[..i])
    {
      if caches[i].id in lookup {
        assert caches[lookup[caches[i].id]].id == caches[i].id;
        return Err(InvalidCache);
      }
      lookup := lookup[caches[i].id := i];
    }
    assert caches[..|caches|] == caches;
    r := Ok(lookup);
  }

  /** A dataset's tables, as its constructor builds them. */
  ghost predicate Tables(caches: seq<Cache>, offsets: seq<nat>, lookup: map<u64, nat>) {
    && AreOffsets(Counts(caches), offsets)
    && Offset(Counts(caches), |caches|) <= U64_MAX
    && IsLookup(caches, lookup)
  }

  ghost function Total(caches: seq<Cache>): nat { Offset(Counts(caches), |caches|) }

  /** `load_sample_by_identity`, up to the read: the cache and row an identity names. */
  function Find(caches: seq<Cache>, lookup: map<u64, nat>, cacheId: u64, sampleId: u64): (r: Result<(nat, nat)>)
    requires IsLookup(caches, lookup)
  {
    if cacheId !in lookup || sampleId >= caches[lookup[cacheId]].samples then Err(InvalidInput)
    else Ok((lookup[cacheId], sampleId))
  }

  /** `physical_index`. */
  function PhysicalIndex(
    caches: seq<Cache>, offsets: seq<nat>, lookup: map<u64, nat>, cacheId: u64, sampleId: u64): (r: Result<nat>)
    requires Tables(caches, offsets, lookup)
  {
    if cacheId !in lookup then Err(InvalidInput)
    else
      var k := lookup[cacheId];
      if sampleId >= caches[k].samples then Err(InvalidInput)
      else if offsets[k] + sampleId > U64_MAX then Err(InvalidInput)
      else Ok(offsets[k] + sampleId)
  }

  /** `locate_physical_sample`. */
  function LocatePhysical(caches: seq<Cache>, offsets: seq<nat>, x: nat): (r: Result<(nat, nat)>)
    requires AreOffsets(Counts(caches), offsets)
  {
    match Locate(Counts(caches), offsets, x)
    case None => Err(InvalidCache)
    case Some(place) => if place.1 >= caches[place.0].samples then Err(InvalidCache) else Ok(place)
  }

  /** An identity is valid when some cache has that id and that many samples. */
  ghost predicate IsIdentity(caches: seq<Cache>, k: nat, cacheId: u64, sampleId: u64) {
    k < |caches| && caches[k].id == cacheId && sampleId < caches[k].samples
  }

  /** Every valid identity has a physical index below the total, and locating that index gives it back. */
  lemma IdentityRoundTrip(
    caches: seq<Cache>, offsets: seq<nat>, lookup: map<u64, nat>, k: nat, cacheId: u64, sampleId: u64)
    requires Tables(caches, offsets, lookup) && IsIdentity(caches, k, cacheId, sampleId)
    ensures var x := PhysicalIndex(caches, offsets, lookup, cacheId, sampleId);
            && x.Ok? && x.value < Total(caches)
            && LocatePhysical(caches, offsets, x.value) == Ok((k, sampleId))
            && Find(caches, lookup, cacheId, sampleId) == Ok((k, sampleId))
  {
    LocateInverts(Counts(caches), offsets, k, sampleId, Offset(Counts(caches), k) + sampleId);
  }

  /** Any other pair is refused, by the metadata path and by the direct read alike. */
  lemma UnknownIdentity(caches: seq<Cache>, offsets: seq<nat>, lookup: map<u64, nat>, cacheId: u64, sampleId: u64)
    requires Tables(caches, offsets, lookup)
    ensures PhysicalIndex(caches, offsets, lookup, cacheId, sampleId).Ok? <==>
      exists k :: IsIdentity(caches, k, cacheId, sampleId)
    ensures Find(caches, lookup, cacheId, sampleId).Ok? <==> exists k :: IsIdentity(caches, k, cacheId, sampleId)
  {
    if k: nat :| IsIdentity(caches, k, cacheId, sampleId) {
      IdentityRoundTrip(caches, offsets, lookup, k, cacheId, sampleId);
    }
    if cacheId in lookup && sampleId < caches[lookup[cacheId]].samples {
      assert IsIdentity(caches, lookup[cacheId], cacheId, sampleId);
    }
  }

  /** Physical indices below the total, and only those, name an identity, which leads back to them. */
  lemma PhysicalRoundTrip(caches: seq<Cache>, offsets: seq<nat>, lookup: map<u64, nat>, x: nat)
    requires Tables(caches, offsets, lookup)
    ensures LocatePhysical(caches, offsets, x).Ok? <==> x < Total(caches)
    ensures x < Total(caches) ==>
      var place := LocatePhysical(caches, offsets, x).value;
      && place.0 < |caches| && place.1 < caches[place.0].samples
      && PhysicalIndex(caches, offsets, lookup, caches[place.0].id, place.1) == Ok(x)
  {
  }
}
