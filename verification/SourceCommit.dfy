/**
 What one source does to a cache directory, event by event.

 The ingesting thread turns each source into a run of events; the committer applies events one at a
 time. This module gives the committer, the events of each source, and the theorem that committing all
 of them in order fills every result slot once, by its own source, independently of the others.
 */
module SourceCommit {
  import opened Common

  /** Names and payloads are only compared and stored, so numbers stand for them. */
  type Name = nat
  type Input = nat

  /** `Temp(n)` is `tmp/n`; a source may not itself be called `tmp`. */
  datatype Path = Final(name: Name) | Temp(name: Name)

  datatype Content = Partial(samples: seq<Input>) | Complete(samples: seq<Input>) | Earlier(tag: nat)

  type Disk = map<Path, Content>

  /**
   One source as its environment behaves: whether its name can be read, what it yields before it is
   exhausted or raises, and which of the file operations on its behalf succeed.
   */
  datatype Source = Source(
    name: Option<Name>,
    samples: seq<Input>,
    raises: bool,
    createOk: bool,
    publishOk: bool,
    existingLoads: bool)

  datatype Record = Success(name: Name) | Failure(index: nat)

  datatype Event =
    | SourceResult(index: nat, record: Record)
    | BeginSource(index: nat, name: Name)
    | Sample(input: Input)
    | EndSource
    | AbortSource

  /** `accepts` and `finishes` are the builder's verdicts on a prefix of samples. */
  datatype Env = Env(
    sources: seq<Source>,
    reuse: bool,
    validate: bool,
    accepts: (seq<Input>, Input) -> bool,
    finishes: seq<Input> -> bool)
  {
    /** `ensure_unique_source_paths`: readable names are pairwise different. */
    ghost predicate UniqueNames() {
      forall i, j :: 0 <= i < j < |sources| && sources[i].name.Some? && sources[j].name.Some? ==>
        sources[i].name.value != sources[j].name.value
    }
  }

  /** `samples` mirrors the builder's contents; a failed source has no builder any more. */
  datatype Active = Active(index: nat, name: Name, samples: seq<Input>, failed: bool)

  datatype Committer = Committer(results: seq<Option<Record>>, active: Option<Active>, disk: Disk)

  // ---------------------------------------------------------------- committing one event

  function RecordResult(c: Committer, index: nat, record: Record): (r: Result<Committer>) {
    if index >= |c.results| || c.results[index].Some? then Err(WorkerFailed)
    else Ok(c.(results := c.results[index := Some(record)]))
  }

  /** `begin_source`: a builder that cannot be created leaves a failed source and no temporary. */
  function Begin(env: Env, c: Committer, index: nat, name: Name): (r: Result<Committer>) {
    if c.active.Some? || index >= |env.sources| then Err(WorkerFailed)
    else if Temp(name) in c.disk || !env.sources[index].createOk then
      Ok(c.(active := Some(Active(index, name, [], true)), disk := c.disk - {Temp(name)}))
    else Ok(c.(active := Some(Active(index, name, [], false)), disk := c.disk[Temp(name) := Partial([])]))
  }

  /** `push_sample`: the first refusal fails the source and removes its temporary. */
  function Push(env: Env, c: Committer, input: Input): (r: Result<Committer>) {
    match c.active
    case None => Err(WorkerFailed)
    case Some(a) =>
      if a.failed then Ok(c)
      else if !env.accepts(a.samples, input) then
        Ok(c.(active := Some(a.(failed := true)), disk := c.disk - {Temp(a.name)}))
      else
        var samples := a.samples + [input];
        Ok(c.(active := Some(a.(samples := samples)), disk := c.disk[Temp(a.name) := Partial(samples)]))
  }

  /** `end_source`: finish, then publish by rename; any failure removes the temporary. */
  function End(env: Env, c: Committer): (r: Result<Committer>) {
    match c.active
    case None => Err(WorkerFailed)
    case Some(a) =>
      var idle := c.(active := None, disk := c.disk - {Temp(a.name)});
      if a.failed || a.index >= |env.sources| || !env.finishes(a.samples) || !env.sources[a.index].publishOk then
        RecordResult(idle, a.index, Failure(a.index))
      else
        RecordResult(idle.(disk := idle.disk[Final(a.name) := Complete(a.samples)]), a.index, Success(a.name))
  }

  function Abort(c: Committer): (r: Result<Committer>) {
    match c.active
    case None => Err(WorkerFailed)
    case Some(a) =>
      RecordResult(c.(active := None, disk := c.disk - {Temp(a.name)}), a.index, Failure(a.index))
  }

  function Commit(env: Env, c: Committer, e: Event): (r: Result<Committer>) {
    match e
    case SourceResult(index, record) => RecordResult(c, index, record)
    case BeginSource(index, name) => Begin(env, c, index, name)
    case Sample(input) => Push(env, c, input)
    case EndSource => End(env, c)
    case AbortSource => Abort(c)
  }

  ghost function CommitAll(env: Env, c: Committer, events: seq<Event>): (r: Result<Committer>) {
    if events == [] then Ok(c)
    else
      match CommitAll(env, c, events[..|events| - 1])
      case Err(e) => Err(e)
      case Ok(before) => Commit(env, before, events[|events| - 1])
  }

  lemma {:induction false} CommitAppend(env: Env, c: Committer, a: seq<Event>, b: seq<Event>)
    requires CommitAll(env, c, a).Ok?
    ensures CommitAll(env, c, a + b) == CommitAll(env, CommitAll(env, c, a).value, b)
    decreases |b|
  {
    if b == [] {
      assert a + b == a;
    } else {
      CommitAppend(env, c, a, b[..|b| - 1]);
      assert (a + b)[..|a + b| - 1] == a + b[..|b| - 1];
    }
  }

  lemma CommitInTurn(env: Env, c: Committer, a: seq<Event>, middle: Committer, b: seq<Event>, end: Committer)
    requires CommitAll(env, c, a) == Ok(middle) && CommitAll(env, middle, b) == Ok(end)
    ensures CommitAll(env, c, a + b) == Ok(end)
  {
    CommitAppend(env, c, a, b);
  }

  // ---------------------------------------------------------------- the events of one source

  /** Whether a source gets as far as opening its temporary cache. */
  predicate Begins(env: Env, i: nat, disk: Disk)
    requires i < |env.sources|
  {
    env.sources[i].name.Some? && Final(env.sources[i].name.value) !in disk
  }

  /** The verdict on a source that never opens a cache. */
  function EarlyRecord(env: Env, i: nat): (r: Record)
    requires i < |env.sources|
  {
    var s := env.sources[i];
    if s.name.Some? && env.reuse && (!env.validate || s.existingLoads) then Success(s.name.value) else Failure(i)
  }

  function SampleEvents(samples: seq<Input>): (r: seq<Event>)
    ensures |r| == |samples|
  {
    if samples == [] then [] else SampleEvents(samples[..|samples| - 1]) + [Sample(samples[|samples| - 1])]
  }

  /** What ingestion sends for source `i`, judged on the directory as it was before the run. */
  function EventsOf(env: Env, i: nat, disk: Disk): (r: seq<Event>)
    requires i < |env.sources|
    ensures |r| > 0
  {
    var s := env.sources[i];
    if !Begins(env, i, disk) then [SourceResult(i, EarlyRecord(env, i))]
    else [BeginSource(i, s.name.value)] + SampleEvents(s.samples) + [if s.raises then AbortSource else EndSource]
  }

  // ---------------------------------------------------------------- the outcome of one source, on its own

  /** All samples were accepted by the builder, in order. */
  predicate AllAccepted(env: Env, samples: seq<Input>) {
    samples == [] || (AllAccepted(env, samples[..|samples| - 1])
      && env.accepts(samples[..|samples| - 1], samples[|samples| - 1]))
  }

  /** The source succeeds: opened, drained without an error, finished and published. */
  predicate Succeeds(env: Env, i: nat)
    requires i < |env.sources|
  {
    var s := env.sources[i];
    s.createOk && AllAccepted(env, s.samples) && !s.raises && env.finishes(s.samples) && s.publishOk
  }

  function Outcome(env: Env, i: nat, disk: Disk): (r: Record)
    requires i < |env.sources|
  {
    if !Begins(env, i, disk) then EarlyRecord(env, i)
    else if Succeeds(env, i) then Success(env.sources[i].name.value)
    else Failure(i)
  }

  /** The only lasting trace of a source is its complete cache, and only if it succeeded. */
  function DiskAfter(env: Env, i: nat, original: Disk, disk: Disk): (r: Disk)
    requires i < |env.sources|
  {
    if Begins(env, i, original) && Succeeds(env, i)
    then disk[Final(env.sources[i].name.value) := Complete(env.sources[i].samples)]
    else disk
  }

  /** State inside an opened source after some of its samples. */
  ghost function Opened(env: Env, c: Committer, i: nat, n: nat): Committer
    requires i < |env.sources| && env.sources[i].name.Some? && n <= |env.sources[i].samples|
  {
    var s, name := env.sources[i], env.sources[i].name.value;
    var taken := s.samples[..n];
    if s.createOk && AllAccepted(env, taken)
    then c.(active := Some(Active(i, name, taken, false)), disk := c.disk[Temp(name) := Partial(taken)])
    else c.(active := Some(Active(i, name, AcceptedPrefix(env, if s.createOk then taken else []), true)))
  }

  /** The samples accepted before the first refusal. */
  ghost function AcceptedPrefix(env: Env, samples: seq<Input>): seq<Input> {
    if AllAccepted(env, samples) then samples else AcceptedPrefix(env, samples[..|samples| - 1])
  }

  lemma PushStep(env: Env, c: Committer, i: nat, n: nat)
    requires i < |env.sources| && env.sources[i].name.Some? && 0 < n <= |env.sources[i].samples|
    requires Temp(env.sources[i].name.value) !in c.disk
    ensures Push(env, Opened(env, c, i, n - 1), env.sources[i].samples[n - 1]) == Ok(Opened(env, c, i, n))
  {
    var s, name := env.sources[i], env.sources[i].name.value;
    var taken, before := s.samples[..n], s.samples[..n - 1];
    assert taken == before + [s.samples[n - 1]] && taken[..n - 1] == before;
    if s.createOk {
      assert AllAccepted(env, taken) <==> AllAccepted(env, before) && env.accepts(before, s.samples[n - 1]);
      assert AllAccepted(env, before) ==> AcceptedPrefix(env, before) == before;
      assert !AllAccepted(env, taken) ==> AcceptedPrefix(env, taken) == AcceptedPrefix(env, before);
    }
    assert c.disk[Temp(name) := Partial(before)] - {Temp(name)} == c.disk;
    assert c.disk[Temp(name) := Partial(before)][Temp(name) := Partial(taken)] == c.disk[Temp(name) := Partial(taken)];
  }

  lemma BeginStep(env: Env, c: Committer, i: nat)
    requires i < |env.sources| && env.sources[i].name.Some?
    requires c.active.None? && Temp(env.sources[i].name.value) !in c.disk
    ensures Begin(env, c, i, env.sources[i].name.value) == Ok(Opened(env, c, i, 0))
  {
    assert env.sources[i].samples[..0] == [];
    assert c.disk - {Temp(env.sources[i].name.value)} == c.disk;
  }

  lemma {:induction false} OpenedStep(env: Env, c: Committer, i: nat, n: nat)
    requires i < |env.sources| && env.sources[i].name.Some? && n <= |env.sources[i].samples|
    requires c.active.None? && Temp(env.sources[i].name.value) !in c.disk
    ensures CommitAll(env, c, [BeginSource(i, env.sources[i].name.value)] + SampleEvents(env.sources[i].samples[..n]))
            == Ok(Opened(env, c, i, n))
    decreases n
  {
    var s := env.sources[i];
    var begin := [BeginSource(i, s.name.value)];
    if n == 0 {
      BeginStep(env, c, i);
      assert begin + SampleEvents(s.samples[..0]) == begin;
      assert CommitAll(env, c, []) == Ok(c) && begin[..0] == [];
    } else {
      OpenedStep(env, c, i, n - 1);
      PushStep(env, c, i, n);
      var taken := s.samples[..n];
      assert taken[..n - 1] == s.samples[..n - 1] && taken[n - 1] == s.samples[n - 1];
      var events := begin + SampleEvents(taken);
      assert events[..|events| - 1] == begin + SampleEvents(s.samples[..n - 1]);
      assert events[|events| - 1] == Sample(s.samples[n - 1]);
    }
  }

  /** One source, alone: its slot, its cache, no temporary, and no internal error. */
  lemma SourceCommits(env: Env, c: Committer, i: nat, original: Disk)
    requires i < |env.sources| && |c.results| == |env.sources|
    requires c.active.None? && c.results[i].None?
    requires Begins(env, i, original) ==> Temp(env.sources[i].name.value) !in c.disk
    ensures CommitAll(env, c, EventsOf(env, i, original)) ==
            Ok(Committer(c.results[i := Some(Outcome(env, i, original))], None, DiskAfter(env, i, original, c.disk)))
  {
    var events := EventsOf(env, i, original);
    if Begins(env, i, original) {
      var s, name := env.sources[i], env.sources[i].name.value;
      OpenedStep(env, c, i, |s.samples|);
      assert s.samples[..|s.samples|] == s.samples;
      assert events[..|events| - 1] == [BeginSource(i, name)] + SampleEvents(s.samples);
      assert c.disk - {Temp(name)} == c.disk;
      assert c.disk[Temp(name) := Partial(s.samples)] - {Temp(name)} == c.disk;
    } else {
      assert events[..0] == [] && CommitAll(env, c, []) == Ok(c);
    }
  }

  // ---------------------------------------------------------------- all sources, one after the other

  /** Everything ingestion sends for the first `k` sources. */
  ghost function EventsUpTo(env: Env, k: nat, original: Disk): (r: seq<Event>)
    requires k <= |env.sources|
  {
    if k == 0 then [] else EventsUpTo(env, k - 1, original) + EventsOf(env, k - 1, original)
  }

  /** Leftover temporaries that ingestion will remove when it reaches the sources from `k` on. */
  ghost function Stale(env: Env, original: Disk, k: nat): (r: set<Path>)
    requires k <= |env.sources|
    ensures forall p :: p in r ==> p.Temp?
    decreases |env.sources| - k
  {
    if k == |env.sources| then {}
    else if Begins(env, k, original) then Stale(env, original, k + 1) + {Temp(env.sources[k].name.value)}
    else Stale(env, original, k + 1)
  }

  /** The temporary of an earlier source is no later source's leftover. */
  lemma {:induction false} NotStale(env: Env, original: Disk, i: nat, k: nat)
    requires env.UniqueNames() && i < k <= |env.sources| && env.sources[i].name.Some?
    ensures Temp(env.sources[i].name.value) !in Stale(env, original, k)
    decreases |env.sources| - k
  {
    if k < |env.sources| {
      NotStale(env, original, i, k + 1);
    }
  }

  lemma {:induction false} IsStale(env: Env, original: Disk, i: nat, k: nat)
    requires k <= i < |env.sources| && Begins(env, i, original)
    ensures Temp(env.sources[i].name.value) in Stale(env, original, k)
    decreases |env.sources| - k
  {
    if k < i {
      IsStale(env, original, i, k + 1);
    }
  }

  /** The reference: sources handled strictly one at a time, the first `k` of them done. */
  ghost function AfterSources(env: Env, original: Disk, k: nat): (r: Committer)
    requires k <= |env.sources|
    ensures |r.results| == |env.sources| && r.active.None?
    ensures forall j :: 0 <= j < k ==> r.results[j] == Some(Outcome(env, j, original))
    ensures forall j :: k <= j < |env.sources| ==> r.results[j].None?
    ensures forall p :: p in Stale(env, original, 0) ==> p !in r.disk
  {
    if k == 0 then Committer(seq(|env.sources|, _ => None), None, original - Stale(env, original, 0))
    else
      var c := AfterSources(env, original, k - 1);
      Committer(c.results[k - 1 := Some(Outcome(env, k - 1, original))], None, DiskAfter(env, k - 1, original, c.disk))
  }

  lemma CommitsNextSource(env: Env, original: Disk, k: nat)
    requires k < |env.sources|
    ensures CommitAll(env, AfterSources(env, original, k), EventsOf(env, k, original)) ==
      Ok(AfterSources(env, original, k + 1))
  {
    if Begins(env, k, original) {
      IsStale(env, original, k, 0);
    }
    SourceCommits(env, AfterSources(env, original, k), k, original);
  }

  /** Committing every event of the first `k` sources gives exactly the reference. */
  lemma {:induction false} CommitsSources(env: Env, original: Disk, k: nat)
    requires k <= |env.sources|
    ensures CommitAll(env, AfterSources(env, original, 0), EventsUpTo(env, k, original)) ==
      Ok(AfterSources(env, original, k))
    decreases k
  {
    var start, done := AfterSources(env, original, 0), AfterSources(env, original, k);
    if k > 0 {
      CommitsSources(env, original, k - 1);
      CommitsNextSource(env, original, k - 1);
      var a, b := EventsUpTo(env, k - 1, original), EventsOf(env, k - 1, original);
      assert CommitAll(env, start, a + b) == Ok(done) by {
        CommitInTurn(env, start, a, AfterSources(env, original, k - 1), b, done);
      }
    }
  }

  /** Removing the temporary of the source in progress, as an interrupted run does. */
  function Cleaned(c: Committer): (r: Committer) {
    if c.active.Some? then c.(active := None, disk := c.disk - {Temp(c.active.value.name)}) else c
  }

  lemma {:induction false} SampleEventsPrefix(samples: seq<Input>, n: nat)
    requires n <= |samples|
    ensures SampleEvents(samples)[..n] == SampleEvents(samples[..n])
    decreases |samples|
  {
    var last := |samples| - 1;
    if n <= last {
      SampleEventsPrefix(samples[..last], n);
      assert samples[..last][..n] == samples[..n];
    } else {
      assert samples[..n] == samples;
    }
  }

  /** Stopping inside a source and cleaning up leaves no trace of it. */
  lemma PartOfSource(env: Env, c: Committer, i: nat, original: Disk, q: nat)
    requires i < |env.sources| && |c.results| == |env.sources| && c.active.None?
    requires Begins(env, i, original) ==> Temp(env.sources[i].name.value) !in c.disk
    requires q < |EventsOf(env, i, original)|
    ensures CommitAll(env, c, EventsOf(env, i, original)[..q]).Ok?
    ensures Cleaned(CommitAll(env, c, EventsOf(env, i, original)[..q]).value) == c
  {
    var events := EventsOf(env, i, original);
    if q == 0 {
      assert events[..0] == [];
    } else {
      var s, name := env.sources[i], env.sources[i].name.value;
      SampleEventsPrefix(s.samples, q - 1);
      assert events[..q] == [BeginSource(i, name)] + SampleEvents(s.samples[..q - 1]);
      OpenedStep(env, c, i, q - 1);
      assert c.disk - {Temp(name)} == c.disk;
      assert c.disk[Temp(name) := Partial(s.samples[..q - 1])] - {Temp(name)} == c.disk;
    }
  }

  lemma {:induction false} EventsUpToPrefix(env: Env, original: Disk, k: nat, n: nat)
    requires k <= n <= |env.sources|
    ensures EventsUpTo(env, k, original) <= EventsUpTo(env, n, original)
    decreases n
  {
    if k < n {
      EventsUpToPrefix(env, original, k, n - 1);
    }
  }

  /** The source that event `m` of the stream of the first `n` belongs to. */
  lemma {:induction false} SourceOfEvent(env: Env, original: Disk, n: nat, m: nat) returns (k: nat, q: nat)
    requires n <= |env.sources| && m < |EventsUpTo(env, n, original)|
    ensures k < n && q < |EventsOf(env, k, original)| && m == |EventsUpTo(env, k, original)| + q
    ensures EventsUpTo(env, n, original)[..m] == EventsUpTo(env, k, original) + EventsOf(env, k, original)[..q]
    decreases n
  {
    var earlier := EventsUpTo(env, n - 1, original);
    assert EventsUpTo(env, n, original)[..m] ==
      if m < |earlier| then earlier[..m] else earlier + EventsOf(env, n - 1, original)[..m - |earlier|] by {
      CutOfConcatenation(earlier, EventsOf(env, n - 1, original), m);
    }
    if m < |earlier| {
      k, q := SourceOfEvent(env, original, n - 1, m);
    } else {
      k, q := n - 1, m - |earlier|;
    }
  }

  lemma CutOfConcatenation<T>(a: seq<T>, b: seq<T>, m: nat)
    requires m < |a + b|
    ensures (a + b)[..m] == if m < |a| then a[..m] else a + b[..m - |a|]
  {
  }

  /**
   Stopping the stream anywhere: no internal error was reached, and cleaning up the source in progress
   leaves exactly what the sources completed by then produce.
   */
  lemma PrefixKeepsCompleted(env: Env, original: Disk, m: nat) returns (k: nat)
    requires m <= |EventsUpTo(env, |env.sources|, original)|
    ensures CommitAll(env, AfterSources(env, original, 0), EventsUpTo(env, |env.sources|, original)[..m]).Ok?
    ensures k <= |env.sources| && |EventsUpTo(env, k, original)| <= m
    ensures k < |env.sources| ==> m < |EventsUpTo(env, k + 1, original)|
    ensures Cleaned(CommitAll(env, AfterSources(env, original, 0), EventsUpTo(env, |env.sources|, original)[..m]).value)
            == AfterSources(env, original, k)
  {
    var n, start := |env.sources|, AfterSources(env, original, 0);
    var plan := EventsUpTo(env, n, original);
    if m == |plan| {
      k := n;
      CommitsSources(env, original, n);
      assert plan[..m] == plan;
    } else {
      var q;
      k, q := SourceOfEvent(env, original, n, m);
      CommitsSources(env, original, k);
      CommitAppend(env, start, EventsUpTo(env, k, original), EventsOf(env, k, original)[..q]);
      if Begins(env, k, original) {
        IsStale(env, original, k, 0);
      }
      PartOfSource(env, AfterSources(env, original, k), k, original, q);
    }
  }

  /** What the reference leaves at each final path. */
  lemma {:induction false} FinalPaths(env: Env, original: Disk, k: nat, j: nat)
    requires env.UniqueNames() && k <= |env.sources| && j < |env.sources| && Begins(env, j, original)
    ensures var p, disk := Final(env.sources[j].name.value), AfterSources(env, original, k).disk;
            if j < k && Succeeds(env, j) then p in disk && disk[p] == Complete(env.sources[j].samples) else p !in disk
    decreases k
  {
    if k > 0 {
      FinalPaths(env, original, k - 1, j);
    }
  }

  /** Every path that is no beginning source's own is as it was. */
  lemma {:induction false} OtherPaths(env: Env, original: Disk, k: nat, p: Path)
    requires k <= |env.sources|
    requires forall j :: 0 <= j < |env.sources| && Begins(env, j, original) ==>
      p != Final(env.sources[j].name.value) && p != Temp(env.sources[j].name.value)
    ensures p in AfterSources(env, original, k).disk <==> p in original
    ensures p in original ==> AfterSources(env, original, k).disk[p] == original[p]
    decreases k
  {
    if k > 0 {
      OtherPaths(env, original, k - 1, p);
    } else {
      StaleHasSource(env, original, 0, p);
    }
  }

  lemma {:induction false} StaleHasSource(env: Env, original: Disk, k: nat, p: Path)
    requires k <= |env.sources|
    ensures p in Stale(env, original, k) ==>
      exists j :: k <= j < |env.sources| && Begins(env, j, original) && p == Temp(env.sources[j].name.value)
    decreases |env.sources| - k
  {
    if k < |env.sources| {
      StaleHasSource(env, original, k + 1, p);
    }
  }

  /**
   What the finished list of results says about the directory: a success has a cache at its path, complete
   if this run wrote it; a failed attempt has none; and no attempted source keeps a temporary.
   */
  lemma ResultsAreTrue(env: Env, original: Disk, j: nat)
    requires env.UniqueNames() && j < |env.sources|
    ensures var done := AfterSources(env, original, |env.sources|);
            && done.results[j].Some?
            && (done.results[j].value.Success? ==>
                  var p := Final(done.results[j].value.name);
                  && env.sources[j].name == Some(p.name)
                  && p in done.disk
                  && (if p in original then done.disk[p] == original[p]
                      else done.disk[p] == Complete(env.sources[j].samples) && Succeeds(env, j)))
            && (done.results[j].value.Failure? && Begins(env, j, original) ==>
                  Final(env.sources[j].name.value) !in done.disk)
            && (Begins(env, j, original) ==> Temp(env.sources[j].name.value) !in done.disk)
  {
    var n := |env.sources|;
    if Begins(env, j, original) {
      FinalPaths(env, original, n, j);
      IsStale(env, original, j, 0);
    } else if env.sources[j].name.Some? {
      OtherPaths(env, original, n, Final(env.sources[j].name.value));
    }
  }

  /**
   "No temporary cache remains" is not what the code gives. A temporary under a source's name remains
   exactly when it was there before and so was the source's cache, because then ingestion never gets as
   far as removing it.
   */
  lemma TemporaryRemains(env: Env, original: Disk, j: nat)
    requires env.UniqueNames() && j < |env.sources| && env.sources[j].name.Some?
    ensures var name := env.sources[j].name.value;
            Temp(name) in AfterSources(env, original, |env.sources|).disk <==>
              Temp(name) in original && Final(name) in original
  {
    var name := env.sources[j].name.value;
    if Begins(env, j, original) {
      IsStale(env, original, j, 0);
    } else {
      OtherPaths(env, original, |env.sources|, Temp(name));
    }
  }

  /** A directory with a finished cache and a leftover beside it: the source succeeds by reuse, the leftover stays. */
  lemma LeftoverStays(env: Env, original: Disk)
    requires env.sources == [Source(Some(7), [], false, true, true, true)] && env.reuse && !env.validate
    requires original == map[Final(7) := Earlier(1), Temp(7) := Earlier(2)]
    ensures AfterSources(env, original, 1).results == [Some(Success(7))]
    ensures Temp(7) in AfterSources(env, original, 1).disk
  {
    TemporaryRemains(env, original, 0);
    assert !Begins(env, 0, original);
  }

  // ---------------------------------------------------------------- the right answer for each source

  lemma {:induction false} AcceptedEach(env: Env, samples: seq<Input>)
    ensures AllAccepted(env, samples) <==> forall k :: 0 <= k < |samples| ==> env.accepts(samples[..k], samples[k])
    decreases |samples|
  {
    if samples != [] {
      var last := |samples| - 1;
      var fewer := samples[..last];
      AcceptedEach(env, fewer);
      assert forall k :: 0 <= k < last ==> fewer[..k] == samples[..k] && fewer[k] == samples[k];
    }
  }

  /** Everything that a source needs to be written in this run. */
  ghost predicate Writable(env: Env, s: Source) {
    && s.createOk && !s.raises && s.publishOk && env.finishes(s.samples)
    && forall k :: 0 <= k < |s.samples| ==> env.accepts(s.samples[..k], s.samples[k])
  }

  /**
   The answer a source must get, read off the source and the directory as it was: without a readable name a
   failure under its position; with a cache at its path a success exactly when reuse is on and the cache loads
   where validation asks for it; otherwise a success exactly when it can be written.
   */
  ghost predicate RightAnswer(env: Env, original: Disk, j: nat, record: Record)
    requires j < |env.sources|
  {
    var s := env.sources[j];
    match s.name
    case None => record == Failure(j)
    case Some(name) =>
      var success :=
        if Final(name) in original then env.reuse && (env.validate ==> s.existingLoads) else Writable(env, s);
      record == if success then Success(name) else Failure(j)
  }

  lemma OutcomeIsRight(env: Env, original: Disk, j: nat)
    requires j < |env.sources|
    ensures RightAnswer(env, original, j, Outcome(env, j, original))
  {
    AcceptedEach(env, env.sources[j].samples);
  }

  /** Reuse of an existing cache, as the finished list of results tells it. */
  lemma ReuseExactly(env: Env, original: Disk, j: nat)
    requires j < |env.sources| && env.sources[j].name.Some? && Final(env.sources[j].name.value) in original
    ensures AfterSources(env, original, |env.sources|).results[j].Some?
    ensures AfterSources(env, original, |env.sources|).results[j].value.Success? <==>
      env.reuse && (env.validate ==> env.sources[j].existingLoads)
  {
    OutcomeIsRight(env, original, j);
  }

  /** Events out of place are internal errors: a slot is filled once, and samples and ends need a source under way. */
  lemma MisplacedEvents(env: Env, c: Committer, index: nat, record: Record, name: Name, input: Input)
    ensures Commit(env, c, SourceResult(index, record)).Ok? <==> index < |c.results| && c.results[index].None?
    ensures c.active.Some? ==> Commit(env, c, BeginSource(index, name)) == Err(WorkerFailed)
    ensures c.active.None? ==>
      && Commit(env, c, Sample(input)) == Err(WorkerFailed)
      && Commit(env, c, EndSource) == Err(WorkerFailed) && Commit(env, c, AbortSource) == Err(WorkerFailed)
  {
  }
}
