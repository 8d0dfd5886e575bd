/** Loading the caches of a dataset on the pool, and putting them back into constructor order. */
module CacheLoading {
  import opened Common

  /** A loaded cache with the constructor position it was loaded for. */
  datatype Loaded<+C> = Loaded(position: nat, cache: C)

  function InsertByPosition<C>(sorted: seq<Loaded<C>>, entry: Loaded<C>): (r: seq<Loaded<C>>) {
    if sorted == [] || sorted[|sorted| - 1].position <= entry.position then sorted + [entry]
    else InsertByPosition(sorted[..|sorted| - 1], entry) + [sorted[|sorted| - 1]]
  }

  /** `sort_by_key` on the position. */
  function SortByPosition<C>(entries: seq<Loaded<C>>): (r: seq<Loaded<C>>) {
    if entries == [] then [] else InsertByPosition(SortByPosition(entries[..|entries| - 1]), entries[|entries| - 1])
  }

  ghost predicate Ascending<C>(s: seq<Loaded<C>>) {
    forall i, j :: 0 <= i < j < |s| ==> s[i].position < s[j].position
  }

  ghost function Positions<C>(entries: seq<Loaded<C>>): set<nat> {
    if entries == [] then {} else Positions(entries[..|entries| - 1]) + {entries[|entries| - 1].position}
  }

  ghost predicate Distinct<C>(entries: seq<Loaded<C>>) {
    entries == [] || (Distinct(entries[..|entries| - 1])
      && entries[|entries| - 1].position !in Positions(entries[..|entries| - 1]))
  }

  /** Ascending, with positions from `keys` and every entry `good`. */
  ghost predicate Ordered<C(!new)>(s: seq<Loaded<C>>, keys: set<nat>, good: Loaded<C> -> bool) {
    Ascending(s) && forall k :: 0 <= k < |s| ==> s[k].position in keys && good(s[k])
  }

  lemma {:induction false} InsertSorts<C(!new)>(
    sorted: seq<Loaded<C>>, entry: Loaded<C>, keys: set<nat>, good: Loaded<C> -> bool)
    requires Ordered(sorted, keys, good) && entry.position !in keys && good(entry)
    ensures Ordered(InsertByPosition(sorted, entry), keys + {entry.position}, good)
    ensures |InsertByPosition(sorted, entry)| == |sorted| + 1
    decreases |sorted|
  {
    if sorted != [] && sorted[|sorted| - 1].position > entry.position {
      var last := |sorted| - 1;
      InsertSorts(sorted[..last], entry, (set p | p in keys && p < sorted[last].position), good);
    }
  }

  lemma {:induction false} SortSorts<C(!new)>(entries: seq<Loaded<C>>, good: Loaded<C> -> bool)
    requires Distinct(entries) && forall k :: 0 <= k < |entries| ==> good(entries[k])
    ensures Ordered(SortByPosition(entries), Positions(entries), good) && |SortByPosition(entries)| == |entries|
    decreases |entries|
  {
    if entries != [] {
      var last := |entries| - 1;
      SortSorts(entries[..last], good);
      InsertSorts(SortByPosition(entries[..last]), entries[last], Positions(entries[..last]), good);
    }
  }

  /** In an ascending list of positions below its length, entry `k` has position `k`. */
  lemma {:induction false} AscendingIsIdentity<C>(s: seq<Loaded<C>>, k: nat)
    requires Ascending(s) && k < |s| && forall i :: 0 <= i < |s| ==> s[i].position < |s|
    ensures s[k].position == k
  {
    AtLeast(s, k);
    AtMost(s, k);
  }

  lemma {:induction false} AtLeast<C>(s: seq<Loaded<C>>, k: nat)
    requires Ascending(s) && k < |s|
    ensures s[k].position >= k
    decreases k
  {
    if k > 0 {
      AtLeast(s, k - 1);
    }
  }

  lemma {:induction false} AtMost<C>(s: seq<Loaded<C>>, k: nat)
    requires Ascending(s) && k < |s| && forall i :: 0 <= i < |s| ==> s[i].position < |s|
    ensures s[k].position <= k
    decreases |s| - k
  {
    if k < |s| - 1 {
      AtMost(s, k + 1);
    }
  }

  /** Everything loaded so far came from its own path, and no position came twice. */
  ghost predicate Gathered<C(!new)>(
    good: Loaded<C> -> bool, results: seq<Loaded<C>>, inFlight: set<nat>, scheduled: nat) {
    && Distinct(results) && Positions(results) !! inFlight
    && (forall k :: 0 <= k < |results| ==> good(results[k]))
    && (forall p :: p in Positions(results) || p in inFlight ==> p < scheduled)
    && |results| + |inFlight| == scheduled
  }

  lemma GatherOne<C(!new)>(
    good: Loaded<C> -> bool, results: seq<Loaded<C>>, inFlight: set<nat>, scheduled: nat, entry: Loaded<C>)
    requires Gathered(good, results, inFlight, scheduled) && entry.position in inFlight && good(entry)
    ensures Gathered(good, results + [entry], inFlight - {entry.position}, scheduled)
  {
    assert (results + [entry])[..|results|] == results;
  }

  lemma ScheduleOne<C(!new)>(good: Loaded<C> -> bool, results: seq<Loaded<C>>, inFlight: set<nat>, scheduled: nat)
    requires Gathered(good, results, inFlight, scheduled)
    ensures Gathered(good, results, inFlight + {scheduled}, scheduled + 1)
    ensures |inFlight + {scheduled}| == |inFlight| + 1
  {
  }

  /** The entry came from its own path. */
  ghost function FromPath<P(!new), C(!new)>(paths: seq<P>, load: (P, nat) -> Result<C>): Loaded<C> -> bool {
    (e: Loaded<C>) => e.position < |paths| && load(paths[e.position], e.position) == Ok(e.cache)
  }

  /** With all results in, sorting by position puts each cache at its own path's place. */
  lemma SortedByPath<P(!new), C(!new)>(
    paths: seq<P>, load: (P, nat) -> Result<C>, results: seq<Loaded<C>>, sorted: seq<Loaded<C>>)
    requires Gathered(FromPath(paths, load), results, {}, |paths|) && sorted == SortByPosition(results)
    ensures |sorted| == |paths| && forall k :: 0 <= k < |paths| ==> load(paths[k], k) == Ok(sorted[k].cache)
  {
    SortSorts(results, FromPath(paths, load));
    forall k | 0 <= k < |paths|
      ensures load(paths[k], k) == Ok(sorted[k].cache)
    {
      AscendingIsIdentity(sorted, k);
    }
  }

  /** `order_loaded_caches`. */
  method OrderLoadedCaches<P(!new), C(!new)>(
    ghost paths: seq<P>, ghost load: (P, nat) -> Result<C>, results: seq<Loaded<C>>)
    returns (caches: seq<C>)
    requires Gathered(FromPath(paths, load), results, {}, |paths|)
    ensures |caches| == |paths| && forall k :: 0 <= k < |paths| ==> load(paths[k], k) == Ok(caches[k])
  {
    var sorted := SortByPosition(results);
    SortedByPath(paths, load, results, sorted);
    caches := [];
    for k := 0 to |sorted|
      invariant |caches| == k && forall j :: 0 <= j < k ==> caches[j] == sorted[j].cache
    {
      caches := caches + [sorted[k].cache];
    }
  }

  /** The receive loop: any outstanding load may finish next, and each frees room for one more. */
  method Gather<P(!new), C(!new)>(
    paths: seq<P>, load: (P, nat) -> Result<C>, parallelism: nat) returns (r: Result<seq<Loaded<C>>>)
    requires 0 < parallelism <= |paths|
    ensures r.Ok? ==> Gathered(FromPath(paths, load), r.value, {}, |paths|)
    ensures r.Err? ==> exists k :: 0 <= k < |paths| && load(paths[k], k).Err?
  {
    ghost var good := FromPath(paths, load);
    var inFlight := FirstLoads(good, parallelism);
    var scheduled := parallelism;
    var results: seq<Loaded<C>> := [];
    while |results| < |paths|
      invariant Gathered(good, results, inFlight, scheduled) && scheduled <= |paths|
      invariant |inFlight| <= parallelism && (inFlight == {} ==> scheduled == |paths|)
      decreases |paths| - |results|
    {
      var position: nat :| position in inFlight;
      match load(paths[position], position)
      case Err(error) => return Err(error);
      case Ok(cache) =>
        GatherOne(good, results, inFlight, scheduled, Loaded(position, cache));
        results, inFlight := results + [Loaded(position, cache)], inFlight - {position};
      if scheduled < |paths| {
        ScheduleOne(good, results, inFlight, scheduled);
        inFlight, scheduled := inFlight + {scheduled}, scheduled + 1;
      }
    }
    r := Ok(results);
  }

  method FirstLoads<C(!new)>(ghost good: Loaded<C> -> bool, parallelism: nat) returns (inFlight: set<nat>)
    ensures |inFlight| == parallelism && Gathered(good, [], inFlight, parallelism)
  {
    inFlight := {};
    var scheduled := 0;
    while scheduled < parallelism
      invariant |inFlight| == scheduled <= parallelism && Gathered(good, [], inFlight, scheduled)
    {
      ScheduleOne(good, [], inFlight, scheduled);
      inFlight, scheduled := inFlight + {scheduled}, scheduled + 1;
    }
  }

  /**
   `load_caches`: whatever order the loads finish in, the caches come back in the order of their paths;
   at most `parallelism` loads are outstanding; and an error is a real one.
   */
  method LoadCaches<P(!new), C(!new)>(
    paths: seq<P>, load: (P, nat) -> Result<C>, workers: nat) returns (r: Result<seq<C>>)
    requires workers > 0
    ensures r.Ok? ==> paths != [] && |r.value| == |paths|
    ensures r.Ok? ==> forall k :: 0 <= k < |paths| ==> load(paths[k], k) == Ok(r.value[k])
    ensures r.Err? ==> paths == [] || exists k :: 0 <= k < |paths| && load(paths[k], k).Err?
  {
    var parallelism := if workers < |paths| then workers else |paths|;
    if parallelism == 0 {
      return Err(InvalidInput);
    }
    var gathered := Gather(paths, load, parallelism);
    match gathered
    case Err(error) => r := Err(error);
    case Ok(results) =>
      var ordered := OrderLoadedCaches(paths, load, results);
      r := Ok(ordered);
  }
}
