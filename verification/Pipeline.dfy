/**
 The source-list write pipeline: one thread ingests sources into numbered events, a worker pool passes
 the events on in any order, and the same thread commits them strictly in order of their numbers.

 `inFlight` is the environment's share of the state: the events queued, running or finished but not
 received. A receive may return any of them. Signals are an oracle: `signal(m)` tells whether one is
 noticed once `m` events are out, by the check before the next event or while waiting to send it; and
 `again` whether another one may cut short the draining that follows an interrupt.
 */
module Pipeline {
  import opened Common
  import opened SourceCommit

  /** What earlier runs left at the given paths. */
  ghost function Leftovers(stale: set<Path>, original: Disk): Disk {
    map p | p in stale && p in original :: original[p]
  }

  /**
   The real committer against the reference one: equal, except that the leftovers at `stale`, which
   ingestion has not reached yet, are still there as they were in `original`.
   */
  ghost predicate Mirrors(c: Committer, reference: Committer, stale: set<Path>, original: Disk) {
    && c == reference.(disk := reference.disk + Leftovers(stale, original))
    && reference.disk.Keys !! stale
    && (reference.active.Some? ==> Temp(reference.active.value.name) !in stale)
  }

  ghost predicate Untouched(disk: Disk, paths: set<Path>, original: Disk) {
    forall p :: p in paths ==> (p in disk <==> p in original) && (p in original && p in disk ==> disk[p] == original[p])
  }

  lemma ChangeBeside(disk: Disk, left: Disk, p: Path, content: Content)
    requires p !in left
    ensures (disk + left) - {p} == (disk - {p}) + left
    ensures (disk + left)[p := content] == disk[p := content] + left
  {
  }

  /** Committing the same event keeps the two in step, because no event touches the leftovers. */
  lemma MirrorsStep(env: Env, c: Committer, reference: Committer, stale: set<Path>, original: Disk, e: Event)
    requires Mirrors(c, reference, stale, original) && (forall p :: p in stale ==> p.Temp?)
    requires e.BeginSource? ==> Temp(e.name) !in stale
    requires Commit(env, reference, e).Ok?
    ensures Commit(env, c, e).Ok?
    ensures Mirrors(Commit(env, c, e).value, Commit(env, reference, e).value, stale, original)
  {
    var left := Leftovers(stale, original);
    match e
    case SourceResult(index, record) =>
    case BeginSource(index, name) => ChangeBeside(reference.disk, left, Temp(name), Partial([]));
    case Sample(input) =>
      var a := c.active.value;
      ChangeBeside(reference.disk, left, Temp(a.name), Partial(a.samples + [input]));
    case EndSource =>
      var a := c.active.value;
      ChangeBeside(reference.disk, left, Temp(a.name), Partial([]));
      ChangeBeside(reference.disk - {Temp(a.name)}, left, Final(a.name), Complete(a.samples));
    case AbortSource => ChangeBeside(reference.disk, left, Temp(c.active.value.name), Partial([]));
  }

  lemma MirrorsCleaned(c: Committer, reference: Committer, stale: set<Path>, original: Disk)
    requires Mirrors(c, reference, stale, original)
    ensures Mirrors(Cleaned(c), Cleaned(reference), stale, original)
  {
    if c.active.Some? {
      ChangeBeside(reference.disk, Leftovers(stale, original), Temp(c.active.value.name), Partial([]));
    }
  }

  /** `prepare_cache_paths` removing one leftover moves it from "not reached yet" to gone. */
  lemma MirrorsPrepared(c: Committer, reference: Committer, stale: set<Path>, original: Disk, p: Path)
    requires Mirrors(c, reference, stale + {p}, original)
    ensures p !in stale ==> Mirrors(c.(disk := c.disk - {p}), reference, stale, original)
  {
    if p !in stale {
      assert c.disk - {p} == reference.disk + Leftovers(stale, original);
    }
  }

  /** `vec![None; n]`. */
  function Empty(n: nat): (r: seq<Option<Record>>) {
    seq(n, _ => None)
  }

  /** The committer state the first `m` events of the whole stream lead to. */
  ghost function AfterEvents(env: Env, original: Disk, m: nat): (r: Committer)
    requires m <= |EventsUpTo(env, |env.sources|, original)|
  {
    PrefixCommits(env, original, m);
    CommitAll(env, AfterSources(env, original, 0), EventsUpTo(env, |env.sources|, original)[..m]).value
  }

  lemma PrefixCommits(env: Env, original: Disk, m: nat)
    requires m <= |EventsUpTo(env, |env.sources|, original)|
    ensures CommitAll(env, AfterSources(env, original, 0), EventsUpTo(env, |env.sources|, original)[..m]).Ok?
  {
    var _ := PrefixKeepsCompleted(env, original, m);
  }

  lemma AfterNextEvent(env: Env, original: Disk, m: nat)
    requires m < |EventsUpTo(env, |env.sources|, original)|
    ensures Commit(env, AfterEvents(env, original, m), EventsUpTo(env, |env.sources|, original)[m])
            == Ok(AfterEvents(env, original, m + 1))
  {
    var plan := EventsUpTo(env, |env.sources|, original);
    PrefixCommits(env, original, m);
    PrefixCommits(env, original, m + 1);
    assert plan[..m + 1][..m] == plan[..m] && plan[..m + 1][m] == plan[m];
  }

  /** Where source `i` stands in the whole stream. */
  lemma {:induction false} PlanAt(env: Env, original: Disk, i: nat, q: nat)
    requires i < |env.sources| && q < |EventsOf(env, i, original)|
    ensures var plan, at := EventsUpTo(env, |env.sources|, original), |EventsUpTo(env, i, original)| + q;
            at < |plan| && plan[at] == EventsOf(env, i, original)[q]
  {
    EventsUpToPrefix(env, original, i + 1, |env.sources|);
  }

  lemma {:induction false} SampleEventAt(samples: seq<Input>, k: nat)
    requires k < |samples|
    ensures SampleEvents(samples)[k] == Sample(samples[k])
    decreases |samples|
  {
    if k < |samples| - 1 {
      SampleEventAt(samples[..|samples| - 1], k);
    }
  }

  lemma ReferenceExistsAsBefore(env: Env, original: Disk, i: nat, k: nat)
    requires env.UniqueNames() && k <= i < |env.sources| && env.sources[i].name.Some?
    ensures Final(env.sources[i].name.value) in AfterSources(env, original, k).disk <==>
      Final(env.sources[i].name.value) in original
  {
    if Begins(env, i, original) {
      FinalPaths(env, original, k, i);
    } else {
      OtherPaths(env, original, k, Final(env.sources[i].name.value));
    }
  }

  /** While earlier sources are still being committed, a later source's own path is as it was before the run. */
  lemma ExistsAsBefore(env: Env, original: Disk, i: nat, m: nat)
    requires env.UniqueNames() && i < |env.sources| && env.sources[i].name.Some?
    requires m <= |EventsUpTo(env, |env.sources|, original)| && m <= |EventsUpTo(env, i, original)|
    ensures Final(env.sources[i].name.value) in AfterEvents(env, original, m).disk <==>
      Final(env.sources[i].name.value) in original
  {
    var k := PrefixKeepsCompleted(env, original, m);
    StreamGrows(env, original, i, k);
    ReferenceExistsAsBefore(env, original, i, k);
    CleanedKeepsFinals(AfterEvents(env, original, m), env.sources[i].name.value);
  }

  lemma CleanedKeepsFinals(c: Committer, name: Name)
    ensures Final(name) in Cleaned(c).disk <==> Final(name) in c.disk
  {
  }

  lemma StreamGrows(env: Env, original: Disk, i: nat, k: nat)
    requires i < |env.sources| && k <= |env.sources|
    ensures i < k ==> |EventsUpTo(env, i, original)| < |EventsUpTo(env, k, original)|
  {
    if i < k {
      EventsUpToPrefix(env, original, i + 1, k);
    }
  }

  /** The events numbered from `next` on lie in exactly one of the two maps, under their own numbers. */
  ghost predicate Covers<E>(pending: map<nat, E>, inFlight: map<nat, E>, sent: seq<E>, next: nat) {
    && Numbered(pending, sent, next) && Numbered(inFlight, sent, next)
    && pending.Keys !! inFlight.Keys
    && (forall k :: next <= k < |sent| ==> k in pending || k in inFlight)
  }

  ghost predicate Numbered<E>(events: map<nat, E>, sent: seq<E>, next: nat) {
    forall k :: k in events ==> next <= k < |sent| && events[k] == sent[k]
  }

  lemma CoversCommit<E>(pending: map<nat, E>, inFlight: map<nat, E>, sent: seq<E>, next: nat)
    requires Covers(pending, inFlight, sent, next) && next in pending
    ensures next < |sent| && pending[next] == sent[next]
    ensures Covers(pending - {next}, inFlight, sent, next + 1)
  {
  }

  lemma CoversReceive<E>(pending: map<nat, E>, inFlight: map<nat, E>, sent: seq<E>, next: nat, k: nat)
    requires Covers(pending, inFlight, sent, next) && k in inFlight
    ensures k !in pending && Covers(pending[k := inFlight[k]], inFlight - {k}, sent, next)
    ensures |inFlight - {k}| == |inFlight| - 1
  {
    assert inFlight.Keys == (inFlight - {k}).Keys + {k};
  }

  lemma CoversSend<E>(pending: map<nat, E>, inFlight: map<nat, E>, sent: seq<E>, next: nat, event: E)
    requires Covers(pending, inFlight, sent, next) && next <= |sent|
    ensures |sent| !in pending && |sent| !in inFlight
    ensures Covers(pending, inFlight[|sent| := event], sent + [event], next)
    ensures |inFlight[|sent| := event]| == |inFlight| + 1
  {
    NumberedSend(pending, sent, next, event);
    NumberedSend(inFlight, sent, next, event);
    var after := inFlight[|sent| := event];
    assert after.Keys == inFlight.Keys + {|sent|};
    assert Numbered(after, sent + [event], next);
    forall k | next <= k < |sent + [event]|
      ensures k in pending || k in after
    {
      assert k == |sent| || k in pending || k in inFlight;
    }
  }

  lemma CoversNothing<E>(pending: map<nat, E>, inFlight: map<nat, E>, sent: seq<E>, next: nat)
    requires Covers(pending, inFlight, sent, next) && next <= |sent| && next !in pending && |inFlight| == 0
    ensures next == |sent| && |pending| == 0
  {
    assert next < |sent| ==> next in pending || next in inFlight;
    assert pending.Keys == {};
  }

  /** With one job at a time, the job that comes back is the one waited for. */
  lemma SerialReceive<E>(pending: map<nat, E>, inFlight: map<nat, E>, sent: seq<E>, next: nat, k: nat)
    requires Covers(pending, inFlight, sent, next) && pending == map[] && |inFlight| <= 1 && k in inFlight
    ensures k == next
  {
    assert next < |sent|;
    assert next in inFlight;
    if k != next {
      SubsetSize({k, next}, inFlight.Keys);
    }
  }

  lemma SerialCommit<E>(pending: map<nat, E>, inFlight: map<nat, E>, sent: seq<E>, next: nat, k: nat)
    requires Covers(pending, inFlight, sent, next) && next !in pending && pending.Keys <= {k} && k <= next
    ensures pending == map[]
  {
    assert k !in pending;
  }

  /** Every event sent and not committed is counted once. */
  lemma CoversCount<E>(pending: map<nat, E>, inFlight: map<nat, E>, sent: seq<E>, next: nat)
    requires Covers(pending, inFlight, sent, next) && next <= |sent|
    ensures |pending| + |inFlight| == |sent| - next
  {
    var waiting, flying := pending.Keys, inFlight.Keys;
    assert forall k :: k in waiting || k in flying <==> next <= k < |sent|;
    DisjointInterval(waiting, flying, next, |sent|);
  }

  lemma DisjointInterval(a: set<nat>, b: set<nat>, lo: nat, hi: nat)
    requires a !! b && lo <= hi && forall k :: k in a || k in b <==> lo <= k < hi
    ensures |a| + |b| == hi - lo
  {
    assert a + b == Interval(lo, hi);
    assert |a + b| == |a| + |b|;
  }

  lemma NumberedSend<E>(events: map<nat, E>, sent: seq<E>, next: nat, event: E)
    requires Numbered(events, sent, next)
    ensures Numbered(events, sent + [event], next) && |sent| !in events
  {
  }

  /**
   The whole stream, where each source starts in it, the reference state after each event, and the
   leftovers not reached yet when ingestion is about to handle each source.
   */
  datatype Script = Script(plan: seq<Event>, starts: seq<nat>, states: seq<Committer>, stale: seq<set<Path>>)

  ghost predicate StepFrom(env: Env, script: Script, m: nat)
    requires m < |script.plan| < |script.states|
  {
    Commit(env, script.states[m], script.plan[m]) == Ok(script.states[m + 1])
  }

  ghost predicate OnlyTemporaries(script: Script, k: nat)
    requires k < |script.stale|
  {
    forall p :: p in script.stale[k] ==> p.Temp?
  }

  /** The script goes from state to state by committing its events, and only temporaries are left over. */
  ghost predicate Coherent(env: Env, script: Script) {
    && |script.states| == |script.plan| + 1
    && (forall m :: 0 <= m < |script.plan| ==> StepFrom(env, script, m))
    && (forall k {:trigger OnlyTemporaries(script, k)} :: 0 <= k < |script.stale| ==> OnlyTemporaries(script, k))
  }

  /** What was sent is the beginning of the stream, and speaks of no source that ingestion has yet to reach. */
  ghost predicate SentSoFar(script: Script, sent: seq<Event>, reached: nat) {
    && reached < |script.stale|
    && sent <= script.plan
    && (forall k :: 0 <= k < |sent| && sent[k].BeginSource? ==> Temp(sent[k].name) !in script.stale[reached])
  }

  /** `event` follows the events already sent. */
  ghost predicate IsNext(script: Script, sent: seq<Event>, reached: nat, event: Event) {
    && |sent| < |script.plan| && script.plan[|sent|] == event
    && reached < |script.stale|
    && (event.BeginSource? ==> Temp(event.name) !in script.stale[reached])
  }

  ghost predicate QuietBefore(signal: nat -> bool, n: nat) {
    forall m :: 0 <= m < n ==> !signal(m)
  }

  lemma SentOneMore(script: Script, sent: seq<Event>, reached: nat, event: Event)
    requires SentSoFar(script, sent, reached) && IsNext(script, sent, reached, event)
    ensures SentSoFar(script, sent + [event], reached)
  {
  }

  lemma HandOverKeeps(
    script: Script, signal: nat -> bool, pending: map<nat, Event>, inFlight: map<nat, Event>, sent: seq<Event>,
    next: nat, reached: nat, event: Event, all: seq<Event>, flying: map<nat, Event>)
    requires SentSoFar(script, sent, reached) && IsNext(script, sent, reached, event)
    requires QuietBefore(signal, |sent|) && !signal(|sent|)
    requires Covers(pending, inFlight, sent, next) && next <= |sent|
    requires all == sent + [event] && flying == inFlight[|sent| := event]
    ensures SentSoFar(script, all, reached) && QuietBefore(signal, |all|)
    ensures Covers(pending, flying, all, next) && |flying| == |inFlight| + 1 && |sent| !in pending
    ensures flying.Keys == inFlight.Keys + {|sent|}
  {
    CoversSend(pending, inFlight, sent, next, event);
    SentOneMore(script, sent, reached, event);
  }

  /** The committer has applied exactly the first `m` events of the stream. */
  ghost predicate InStepAt(script: Script, original: Disk, c: Committer, m: nat, reached: nat) {
    m < |script.states| && reached < |script.stale| && Mirrors(c, script.states[m], script.stale[reached], original)
  }

  /** The script of a run over `original`. */
  ghost predicate IsScriptOf(env: Env, original: Disk, script: Script) {
    && script.plan == EventsUpTo(env, |env.sources|, original)
    && |script.states| == |script.plan| + 1
    && (forall m :: 0 <= m <= |script.plan| ==> script.states[m] == AfterEvents(env, original, m))
    && |script.starts| == |script.stale| == |env.sources| + 1
    && (forall k :: 0 <= k <= |env.sources| ==> script.starts[k] == |EventsUpTo(env, k, original)|)
    && (forall k :: 0 <= k <= |env.sources| ==> script.stale[k] == Stale(env, original, k))
  }

  ghost function ScriptOf(env: Env, original: Disk): Script {
    var plan, n := EventsUpTo(env, |env.sources|, original), |env.sources|;
    Script(plan,
           seq(n + 1, k requires 0 <= k <= n => |EventsUpTo(env, k, original)|),
           seq(|plan| + 1, m requires 0 <= m <= |plan| => AfterEvents(env, original, m)),
           seq(n + 1, k requires 0 <= k <= n => Stale(env, original, k)))
  }

  lemma ScriptOfIsScript(env: Env, original: Disk)
    ensures IsScriptOf(env, original, ScriptOf(env, original))
  {
  }

  lemma ScriptIsCoherent(env: Env, original: Disk, script: Script)
    requires script == ScriptOf(env, original)
    ensures Coherent(env, script)
  {
    ScriptOfIsScript(env, original);
    forall m | 0 <= m < |script.plan|
      ensures StepFrom(env, script, m)
    {
      AfterNextEvent(env, original, m);
    }
    forall k | 0 <= k < |script.stale|
      ensures OnlyTemporaries(script, k)
    {
      assert script.stale[k] == Stale(env, original, k);
    }
  }

  lemma ScriptStarts(env: Env, original: Disk, script: Script)
    requires script == ScriptOf(env, original)
    ensures SentSoFar(script, [], 0)
      && InStepAt(script, original, Committer(Empty(|env.sources|), None, original), 0, 0)
  {
    ScriptOfIsScript(env, original);
    assert script.states[0] == AfterEvents(env, original, 0);
    assert script.plan[..0] == [];
    assert Empty(|env.sources|) == AfterSources(env, original, 0).results;
    var stale := Stale(env, original, 0);
    assert original == (original - stale) + Leftovers(stale, original);
  }

  lemma OwnTemporary(env: Env, original: Disk, i: nat, q: nat)
    requires env.UniqueNames() && i < |env.sources| && q < |EventsOf(env, i, original)|
    ensures EventsOf(env, i, original)[q].BeginSource? ==>
      Temp(EventsOf(env, i, original)[q].name) !in Stale(env, original, i + 1)
  {
    if Begins(env, i, original) {
      NotStale(env, original, i, i + 1);
      if 0 < q < |EventsOf(env, i, original)| - 1 {
        SampleEventAt(env.sources[i].samples, q - 1);
      }
    }
  }

  /** The event after `q` of source `i`'s own may be sent once source `i` has been reached. */
  lemma NextOfSource(env: Env, original: Disk, script: Script, sent: seq<Event>, i: nat, q: nat)
    requires env.UniqueNames() && script == ScriptOf(env, original)
    requires i < |env.sources| && q < |EventsOf(env, i, original)| && |sent| == script.starts[i] + q
    ensures IsNext(script, sent, i + 1, EventsOf(env, i, original)[q])
  {
    ScriptOfIsScript(env, original);
    PlanAt(env, original, i, q);
    OwnTemporary(env, original, i, q);
    assert script.starts[i] == |EventsUpTo(env, i, original)| && script.stale[i + 1] == Stale(env, original, i + 1);
  }

  lemma BeginIsNext(env: Env, original: Disk, script: Script, sent: seq<Event>, i: nat, name: Name)
    requires env.UniqueNames() && script == ScriptOf(env, original) && i < |env.sources| && Begins(env, i, original)
    requires env.sources[i].name == Some(name) && |sent| == script.starts[i]
    ensures IsNext(script, sent, i + 1, BeginSource(i, name))
  {
    EventsOfOpened(env, original, i);
    NextOfSource(env, original, script, sent, i, 0);
  }

  lemma SampleIsNext(env: Env, original: Disk, script: Script, sent: seq<Event>, i: nat, k: nat, input: Input)
    requires env.UniqueNames() && script == ScriptOf(env, original) && i < |env.sources| && Begins(env, i, original)
    requires k < |env.sources[i].samples| && env.sources[i].samples[k] == input && |sent| == script.starts[i] + k + 1
    ensures IsNext(script, sent, i + 1, Sample(input))
  {
    EventsOfOpened(env, original, i);
    NextOfSource(env, original, script, sent, i, k + 1);
  }

  /** Source `i` is not over: its remaining events lie before the next source's. */
  lemma InsideSource(env: Env, original: Disk, script: Script, i: nat, q: nat)
    requires script == ScriptOf(env, original) && i < |env.sources| && q < |EventsOf(env, i, original)|
    ensures script.starts[i] + q < |script.plan| && script.starts[i] + q <= script.starts[i + 1]
  {
    ScriptOfIsScript(env, original);
    PlanAt(env, original, i, q);
    NextStart(env, original, script, i);
    assert script.starts[i] == |EventsUpTo(env, i, original)|;
  }

  lemma NextStart(env: Env, original: Disk, script: Script, i: nat)
    requires script == ScriptOf(env, original) && i < |env.sources|
    ensures script.starts[i + 1] == script.starts[i] + |EventsOf(env, i, original)|
  {
    ScriptOfIsScript(env, original);
    assert script.starts[i + 1] == |EventsUpTo(env, i + 1, original)|;
  }

  lemma StartsGrow(env: Env, original: Disk, script: Script, i: nat)
    requires script == ScriptOf(env, original) && i <= |env.sources|
    ensures script.starts[i] <= |script.plan| == |EventsUpTo(env, |env.sources|, original)|
    ensures i == |env.sources| ==> script.starts[i] == |script.plan|
  {
    ScriptOfIsScript(env, original);
    StreamLengths(env, original, i, |env.sources|);
    assert script.starts[i] == |EventsUpTo(env, i, original)|;
  }

  lemma StartsBelowEnd(env: Env, original: Disk, script: Script, i: nat)
    requires script == ScriptOf(env, original) && i < |env.sources|
    ensures script.starts[i] < |script.plan|
    ensures i > 0 ==> script.starts[i - 1] <= script.starts[i]
  {
    ScriptOfIsScript(env, original);
    PlanAt(env, original, i, 0);
    if i > 0 {
      NextStart(env, original, script, i - 1);
    }
  }

  /** The positions of the stream in terms of the sources' own events. */
  lemma StopPlaced(env: Env, original: Disk, script: Script, accepted: nat, reached: nat)
    requires script == ScriptOf(env, original) && reached <= |env.sources|
    requires || (accepted <= script.starts[reached] && (reached > 0 ==> script.starts[reached - 1] <= accepted))
             || (accepted == |script.plan| && reached == |env.sources|)
    ensures |script.plan| == |EventsUpTo(env, |env.sources|, original)|
    ensures accepted <= |EventsUpTo(env, reached, original)|
    ensures reached > 0 ==> |EventsUpTo(env, reached - 1, original)| <= accepted
  {
    ScriptOfIsScript(env, original);
    assert script.starts[reached] == |EventsUpTo(env, reached, original)|;
    if reached > 0 {
      assert script.starts[reached - 1] == |EventsUpTo(env, reached - 1, original)|;
      NextStart(env, original, script, reached - 1);
    }
  }

  lemma ScriptEnds(env: Env, original: Disk, script: Script)
    requires script == ScriptOf(env, original)
    ensures |script.starts| == |env.sources| + 1
    ensures script.starts[0] == 0 && script.starts[|env.sources|] == |script.plan|
  {
    ScriptOfIsScript(env, original);
    assert script.starts[0] == |EventsUpTo(env, 0, original)|;
  }

  /** The shape of the events of a source that opens a cache. */
  lemma EventsOfOpened(env: Env, original: Disk, i: nat)
    requires i < |env.sources| && Begins(env, i, original)
    ensures var s, events := env.sources[i], EventsOf(env, i, original);
            && |events| == |s.samples| + 2
            && events[0] == BeginSource(i, s.name.value)
            && (forall k :: 0 <= k < |s.samples| ==> events[k + 1] == Sample(s.samples[k]))
            && events[|s.samples| + 1] == if s.raises then AbortSource else EndSource
  {
    var s := env.sources[i];
    forall k | 0 <= k < |s.samples|
      ensures EventsOf(env, i, original)[k + 1] == Sample(s.samples[k])
    {
      SampleEventAt(s.samples, k);
    }
  }

  lemma ReachKeeps(env: Env, original: Disk, script: Script, c: Committer, m: nat, sent: seq<Event>, i: nat)
    requires env.UniqueNames() && script == ScriptOf(env, original) && i < |env.sources|
    requires SentSoFar(script, sent, i) && InStepAt(script, original, c, m, i)
    ensures SentSoFar(script, sent, i + 1)
    ensures Begins(env, i, original) ==>
      InStepAt(script, original, c.(disk := c.disk - {Temp(env.sources[i].name.value)}), m, i + 1)
    ensures !Begins(env, i, original) ==> InStepAt(script, original, c, m, i + 1)
  {
    ScriptOfIsScript(env, original);
    var now, later := script.stale[i], script.stale[i + 1];
    assert now == Stale(env, original, i) && later == Stale(env, original, i + 1);
    if Begins(env, i, original) {
      var temp := Temp(env.sources[i].name.value);
      NotStale(env, original, i, i + 1);
      MirrorsPrepared(c, script.states[m], later, original, temp);
    }
  }

  lemma ExistsNow(env: Env, original: Disk, script: Script, c: Committer, m: nat, i: nat)
    requires env.UniqueNames() && script == ScriptOf(env, original) && i < |env.sources|
    requires InStepAt(script, original, c, m, i) && m <= script.starts[i]
    ensures Begins(env, i, original) <==>
      env.sources[i].name.Some? && Final(env.sources[i].name.value) !in c.disk
  {
    ScriptOfIsScript(env, original);
    if env.sources[i].name.Some? {
      ExistsAsBefore(env, original, i, m);
      var p, stale := Final(env.sources[i].name.value), script.stale[i];
      assert stale == Stale(env, original, i);
      assert p in c.disk <==> p in c.disk - stale;
    }
  }

  /** `prepare_cache_paths`: a source without a cache loses the temporary an earlier run left. */
  function Prepared(env: Env, c: Committer, i: nat): Committer
    requires i < |env.sources|
  {
    var s := env.sources[i];
    if s.name.Some? && Final(s.name.value) !in c.disk then c.(disk := c.disk - {Temp(s.name.value)}) else c
  }

  lemma ReachPrepares(env: Env, original: Disk, script: Script, c: Committer, m: nat, sent: seq<Event>, i: nat)
    requires env.UniqueNames() && script == ScriptOf(env, original) && i < |env.sources|
    requires SentSoFar(script, sent, i) && InStepAt(script, original, c, m, i) && m <= script.starts[i]
    ensures SentSoFar(script, sent, i + 1) && InStepAt(script, original, Prepared(env, c, i), m, i + 1)
  {
    ExistsNow(env, original, script, c, m, i);
    ReachKeeps(env, original, script, c, m, sent, i);
  }

  /** The results and the directory are those of the first `k` sources, done one by one. */
  ghost predicate Kept(env: Env, original: Disk, c: Committer, k: nat, reached: nat)
    requires k <= |env.sources|
  {
    reached <= |env.sources| && Mirrors(c, AfterSources(env, original, k), Stale(env, original, reached), original)
  }

  /** `k` sources have all their events among the first `m` of the stream, and the next one has not. */
  ghost predicate CompletedAt(env: Env, original: Disk, k: nat, m: nat) {
    && k <= |env.sources| && |EventsUpTo(env, k, original)| <= m
    && (k < |env.sources| ==> m < |EventsUpTo(env, k + 1, original)|)
  }

  lemma CleanedKeeps(env: Env, original: Disk, script: Script, c: Committer, m: nat, reached: nat) returns (k: nat)
    requires script == ScriptOf(env, original) && InStepAt(script, original, c, m, reached)
    ensures CompletedAt(env, original, k, m) && Kept(env, original, Cleaned(c), k, reached)
  {
    ScriptOfIsScript(env, original);
    k := PrefixKeepsCompleted(env, original, m);
    assert script.states[m] == AfterEvents(env, original, m);
    MirrorsCleaned(c, script.states[m], script.stale[reached], original);
    assert script.stale[reached] == Stale(env, original, reached);
  }

  /** With every event committed and every source reached, the committer is the reference. */
  lemma AllCommitted(env: Env, original: Disk, script: Script, c: Committer)
    requires script == ScriptOf(env, original)
    requires InStepAt(script, original, c, |script.plan|, |env.sources|)
    ensures c == AfterSources(env, original, |env.sources|)
  {
    ScriptOfIsScript(env, original);
    CommitsSources(env, original, |env.sources|);
    assert script.plan[..|script.plan|] == script.plan;
    assert script.states[|script.plan|] == AfterEvents(env, original, |script.plan|);
    assert script.stale[|env.sources|] == Stale(env, original, |env.sources|) == {};
    assert c.disk - {} == c.disk;
  }

  /** How far a run came: `accepted` events were sent, `committed` of them applied. */
  datatype Progress = Progress(accepted: nat, committed: nat, completed: nat, reached: nat)

  /**
   What an interrupted run leaves. It accepted the events before the first signal (or all that can be
   numbered). Without a second signal every accepted event is applied. The sources whose events were all
   applied are kept exactly as writing them one by one leaves them, the one in progress leaves no trace,
   and leftovers of sources not reached are untouched.
   */
  ghost predicate StopsAt(env: Env, disk: Disk, signal: nat -> bool, again: bool, p: Progress, error: Error) {
    var n, total := |env.sources|, |EventsUpTo(env, |env.sources|, disk)|;
    && p.committed <= p.accepted <= total && p.reached <= n
    && QuietBefore(signal, p.accepted)
    && (if signal(p.accepted) then error == Interrupted
        else error == InvalidInput && p.accepted == U64_MAX < total)
    && (p.accepted < total && !again ==> p.committed == p.accepted)
    && CompletedAt(env, disk, p.completed, p.committed)
    && p.accepted <= |EventsUpTo(env, p.reached, disk)|
    && (p.reached > 0 ==> |EventsUpTo(env, p.reached - 1, disk)| <= p.accepted)
  }

  ghost predicate Leaves(env: Env, disk: Disk, p: Progress, after: Disk)
    requires p.completed <= |env.sources| && p.reached <= |env.sources|
  {
    && after - Stale(env, disk, p.reached) == AfterSources(env, disk, p.completed).disk
    && Untouched(after, Stale(env, disk, p.reached), disk)
  }

  lemma StopReported(
    env: Env, disk: Disk, signal: nat -> bool, again: bool, script: Script, p: Progress, error: Error)
    requires script == ScriptOf(env, disk) && p.reached <= |env.sources| && p.committed <= p.accepted
    requires QuietBefore(signal, p.accepted) && CompletedAt(env, disk, p.completed, p.committed)
    requires || (p.accepted < |script.plan| && p.accepted <= script.starts[p.reached]
                 && (p.reached > 0 ==> script.starts[p.reached - 1] <= p.accepted))
             || (p.accepted == |script.plan| && p.reached == |env.sources| && signal(p.accepted))
    requires if signal(p.accepted) then error == Interrupted
             else error == InvalidInput && p.accepted == U64_MAX < |script.plan|
    requires p.accepted < |script.plan| && !again ==> p.committed == p.accepted
    ensures StopsAt(env, disk, signal, again, p, error)
  {
    StopPlaced(env, disk, script, p.accepted, p.reached);
  }

  lemma KeptLeaves(env: Env, disk: Disk, p: Progress, c: Committer)
    requires p.completed <= |env.sources| && p.reached <= |env.sources|
    requires Kept(env, disk, c, p.completed, p.reached)
    ensures Leaves(env, disk, p, c.disk)
  {
    var stale, reference := Stale(env, disk, p.reached), AfterSources(env, disk, p.completed);
    assert c.disk - stale == reference.disk;
  }

  /** A source whose events were all applied is still there, complete, however the run ended. */
  lemma CompletedSourcesKept(
    env: Env, disk: Disk, signal: nat -> bool, again: bool, p: Progress, error: Error, after: Disk, j: nat)
    requires env.UniqueNames() && StopsAt(env, disk, signal, again, p, error) && Leaves(env, disk, p, after)
    requires j < |env.sources| && |EventsUpTo(env, j + 1, disk)| <= p.committed
    requires Begins(env, j, disk) && Succeeds(env, j)
    ensures var path := Final(env.sources[j].name.value);
            path in after && after[path] == Complete(env.sources[j].samples)
  {
    CompletedCovers(env, disk, p.completed, p.committed, j);
    FinalPaths(env, disk, p.completed, j);
    assert Final(env.sources[j].name.value) in after - Stale(env, disk, p.reached);
  }

  lemma CompletedCovers(env: Env, disk: Disk, k: nat, m: nat, j: nat)
    requires CompletedAt(env, disk, k, m) && j < |env.sources| && |EventsUpTo(env, j + 1, disk)| <= m
    ensures j < k
  {
    StreamLongest(env, disk, k, j);
  }

  lemma StreamLongest(env: Env, disk: Disk, k: nat, j: nat)
    requires j < |env.sources| && k <= |env.sources|
    ensures k <= j ==> |EventsUpTo(env, k + 1, disk)| <= |EventsUpTo(env, j + 1, disk)|
  {
    if k <= j {
      StreamLengths(env, disk, k + 1, j + 1);
    }
  }

  lemma {:induction false} Climbs(lengths: seq<nat>, a: nat, b: nat)
    requires a <= b < |lengths| && forall k :: 0 <= k < |lengths| - 1 ==> lengths[k] < lengths[k + 1]
    ensures lengths[a] <= lengths[b]
    decreases b
  {
    if a < b {
      Climbs(lengths, a, b - 1);
    }
  }

  lemma StreamLengths(env: Env, disk: Disk, a: nat, b: nat)
    requires a <= b <= |env.sources|
    ensures |EventsUpTo(env, a, disk)| <= |EventsUpTo(env, b, disk)|
  {
    var n := |env.sources|;
    var lengths := seq(n + 1, k requires 0 <= k <= n => |EventsUpTo(env, k, disk)|);
    forall k | 0 <= k < n
      ensures lengths[k] < lengths[k + 1]
    {
      StreamStep(env, disk, k);
    }
    Climbs(lengths, a, b);
  }

  lemma StreamStep(env: Env, disk: Disk, k: nat)
    requires k < |env.sources|
    ensures |EventsUpTo(env, k, disk)| < |EventsUpTo(env, k + 1, disk)|
  {
    var before, own := EventsUpTo(env, k, disk), EventsOf(env, k, disk);
    assert EventsUpTo(env, k + 1, disk) == before + own;
    assert |before + own| == |before| + |own|;
  }

  /** One signal decides everything: the events before it, all of them, are what an interrupted run applies. */
  lemma FirstSignalDecides(
    env: Env, disk: Disk, signal: nat -> bool, p: Progress, error: Error, m: nat)
    requires StopsAt(env, disk, signal, false, p, error)
    requires m < |EventsUpTo(env, |env.sources|, disk)| && m <= U64_MAX && QuietBefore(signal, m) && signal(m)
    ensures error == Interrupted && p.accepted == p.committed == m && CompletedAt(env, disk, p.completed, m)
  {
    assert p.accepted < m ==> !signal(p.accepted);
    assert m < p.accepted ==> !signal(m);
  }

  class SourceListPipeline {
    const env: Env
    const parallelism: nat
    const signal: nat -> bool
    const again: bool
    ghost const original: Disk
    ghost const script: Script
    var committer: Committer
    var pending: map<nat, Event>
    var nextSequence: nat
    var outstanding: nat
    var ingress: nat
    var inFlight: map<nat, Event>
    ghost var sent: seq<Event>
    ghost var reached: nat

    /** The script is the one of this run. */
    ghost predicate Scripted() { env.UniqueNames() && script == ScriptOf(env, original) }

    ghost predicate WellFormed()
      reads this`reached, this`ingress, this`sent
    {
      && Coherent(env, script) && parallelism > 0
      && ingress == |sent| <= U64_MAX
      && SentSoFar(script, sent, reached)
      && QuietBefore(signal, |sent|)
    }

    /**
     Ingestion stopped here, inside or just before the last source reached: at the first signal, or
     because the events can no longer be numbered.
     */
    ghost predicate Halted(error: Error)
      reads this`sent, this`reached
    {
      && |sent| < |script.plan| && reached < |script.starts| && |sent| <= script.starts[reached]
      && (reached > 0 ==> script.starts[reached - 1] <= |sent|)
      && (if signal(|sent|) then error == Interrupted else error == InvalidInput && |sent| == U64_MAX)
    }

    /** Pending and outstanding events are exactly those sent and not committed. */
    ghost predicate Window()
      reads this`nextSequence, this`sent, this`pending, this`inFlight, this`outstanding
    {
      nextSequence <= |sent| && outstanding == |inFlight| && Covers(pending, inFlight, sent, nextSequence)
    }

    ghost predicate InStep()
      reads this`committer, this`nextSequence, this`reached
    {
      InStepAt(script, original, committer, nextSequence, reached)
    }

    ghost predicate Valid()
      reads this
    {
      && WellFormed() && Window() && InStep()
      && nextSequence !in pending && outstanding <= parallelism
      && (parallelism == 1 ==> pending == map[])
    }

    constructor (
      env: Env, disk: Disk, parallelism: nat, signal: nat -> bool, again: bool, ghost script: Script)
      requires env.UniqueNames() && parallelism > 0 && script == ScriptOf(env, disk)
      ensures Valid() && Scripted() && this.env == env && original == disk && this.parallelism == parallelism
      ensures this.script == script && this.signal == signal && this.again == again
      ensures sent == [] && reached == 0 && fresh(this)
      ensures pending == map[] && inFlight == map[] && nextSequence == 0
    {
      this.env, this.parallelism, this.script, original := env, parallelism, script, disk;
      this.signal, this.again := signal, again;
      committer := Committer(Empty(|env.sources|), None, disk);
      pending, inFlight, nextSequence, outstanding, ingress := map[], map[], 0, 0, 0;
      sent, reached := [], 0;
      new;
      ScriptIsCoherent(env, disk, script);
      ScriptStarts(env, disk, script);
    }

    /** `commit_event` on the next event in order: an internal error is out of reach. */
    method CommitEvent(event: Event) returns (r: Result<()>)
      requires WellFormed() && nextSequence < |sent| && InStep() && event == sent[nextSequence]
      modifies this`committer
      ensures r.Ok?
      ensures InStepAt(script, original, committer, nextSequence + 1, reached)
    {
      assert StepFrom(env, script, nextSequence) && OnlyTemporaries(script, reached);
      MirrorsStep(env, committer, script.states[nextSequence], script.stale[reached], original, event);
      match Commit(env, committer, event)
      case Err(error) => r := Err(error);
      case Ok(after) =>
        committer := after;
        r := Ok(());
    }

    /** Take the next event out of the reorder buffer, commit it and move on. */
    method CommitNext() returns (r: Result<()>)
      requires WellFormed() && Window() && InStep() && nextSequence in pending
      modifies this`committer, this`pending, this`nextSequence
      ensures r.Ok? && Window() && InStep() && nextSequence == old(nextSequence) + 1
      ensures pending.Keys <= old(pending.Keys)
    {
      var event := pending[nextSequence];
      CoversCommit(pending, inFlight, sent, nextSequence);
      pending := pending - {nextSequence};
      r := CommitEvent(event);
      if r.Ok? {
        if nextSequence == U64_MAX {
          r := Err(InvalidInput);
        } else {
          nextSequence := nextSequence + 1;
        }
      }
    }

    /** `commit_ready_events`: never an error, and afterwards the next event is still on its way. */
    method CommitReady() returns (r: Result<()>)
      requires WellFormed() && Window() && InStep()
      modifies this`committer, this`pending, this`nextSequence
      ensures r.Ok? && WellFormed() && Window() && InStep() && nextSequence !in pending
      ensures nextSequence >= old(nextSequence)
      ensures old(nextSequence !in pending) ==> pending == old(pending) && nextSequence == old(nextSequence)
      ensures pending.Keys <= old(pending.Keys)
    {
      r := Ok(());
      while nextSequence in pending && r.Ok?
        invariant r.Ok? && Window() && InStep() && nextSequence >= old(nextSequence)
        invariant old(nextSequence !in pending) ==> pending == old(pending) && nextSequence == old(nextSequence)
        invariant pending.Keys <= old(pending.Keys)
        decreases |sent| - nextSequence
      {
        r := CommitNext();
      }
    }

    /** A finished job joins the reorder buffer under its own number, which cannot be there already. */
    method Land(sequence: nat) returns (known: bool)
      requires Valid() && sequence in inFlight
      modifies this`pending, this`outstanding, this`inFlight
      ensures WellFormed() && Window() && InStep() && !known
      ensures outstanding == old(outstanding) - 1 && inFlight.Keys == old(inFlight.Keys) - {sequence}
      ensures pending.Keys == old(pending.Keys) + {sequence}
    {
      CoversReceive(pending, inFlight, sent, nextSequence, sequence);
      known := sequence in pending;
      pending := pending[sequence := inFlight[sequence]];
      outstanding, inFlight := outstanding - 1, inFlight - {sequence};
    }

    /** A finished job comes back: it joins the reorder buffer, and what is now contiguous is committed. */
    method Receive(sequence: nat) returns (r: Result<()>)
      requires Valid() && sequence in inFlight
      modifies this`committer, this`pending, this`nextSequence, this`outstanding, this`inFlight
      ensures Valid() && r.Ok? && nextSequence >= old(nextSequence)
      ensures outstanding == old(outstanding) - 1 && inFlight.Keys == old(inFlight.Keys) - {sequence}
      ensures sequence != old(nextSequence) ==>
        nextSequence == old(nextSequence) && pending.Keys == old(pending.Keys) + {sequence}
    {
      if parallelism == 1 {
        SerialReceive(pending, inFlight, sent, nextSequence, sequence);
      }
      var known := Land(sequence);
      if known {
        return Err(WorkerFailed);
      }
      r := CommitReady();
      if parallelism == 1 {
        SerialCommit(pending, inFlight, sent, nextSequence, sequence);
      }
    }

    /** `complete_one`: whichever job finishes first; a signal may interrupt the wait instead. */
    method CompleteOne(signalled: bool) returns (r: Result<()>)
      requires Valid() && outstanding > 0
      modifies this`committer, this`pending, this`nextSequence, this`outstanding, this`inFlight
      ensures Valid() && (r.Ok? || r == Err(Interrupted)) && nextSequence >= old(nextSequence)
      ensures r.Ok? ==> outstanding == old(outstanding) - 1
      ensures !signalled ==> r.Ok?
    {
      var interrupted: bool := *;
      if interrupted && signalled {
        return Err(Interrupted);
      }
      var sequence: nat :| sequence in inFlight;
      r := Receive(sequence);
    }

    /** Hand one event to the pool, within the credit. */
    method HandOver(event: Event)
      requires Valid() && outstanding < parallelism && |sent| < U64_MAX && !signal(|sent|)
        && IsNext(script, sent, reached, event)
      modifies this`outstanding, this`inFlight, this`ingress, this`sent
      ensures Valid() && sent == old(sent) + [event] && inFlight.Keys == old(inFlight.Keys) + {old(|sent|)}
      ensures outstanding == old(outstanding) + 1
    {
      ghost var all := sent + [event];
      var flying := inFlight[ingress := event];
      HandOverKeeps(script, signal, pending, inFlight, sent, nextSequence, reached, event, all, flying);
      inFlight, outstanding := flying, outstanding + 1;
      sent, ingress := all, ingress + 1;
    }

    /** `send_event` and `submit`: the next event of the stream goes out under the next number. */
    method Send(event: Event) returns (r: Result<()>)
      requires Valid()
      requires |sent| < U64_MAX ==> IsNext(script, sent, reached, event)
      modifies this`committer, this`pending, this`nextSequence, this`outstanding, this`inFlight, this`ingress, this`sent
      ensures Valid() && sent == if r.Ok? then old(sent) + [event] else old(sent)
      ensures r.Ok? ==> outstanding == Min(old(outstanding) + 1, parallelism)
      ensures r.Ok? && old(outstanding) < parallelism ==> pending == old(pending) && committer == old(committer)
      ensures r == Err(Interrupted) <==> signal(old(|sent|))
      ensures r == Err(InvalidInput) <==> old(|sent|) == U64_MAX && !signal(old(|sent|))
      ensures r.Ok? || r == Err(Interrupted) || r == Err(InvalidInput)
    {
      if signal(ingress) {
        return Err(Interrupted);
      }
      if ingress == U64_MAX {
        return Err(InvalidInput);
      }
      if outstanding == parallelism {
        r := CompleteOne(false);
        if r.Err? {
          return;
        }
      }
      HandOver(event);
      r := Ok(());
    }

    /**
     Ingestion moves on to source `i`; a source that will open a cache first loses its leftover temporary
     (`prepare_cache_paths`).
     */
    method Reach(i: nat)
      requires Valid() && Scripted() && reached == i < |env.sources|
      requires |sent| == script.starts[i]
      modifies this`committer, this`reached
      ensures Valid() && reached == i + 1
    {
      ReachPrepares(env, original, script, committer, nextSequence, sent, i);
      committer := Prepared(env, committer, i);
      reached := i + 1;
    }

    /** Ingestion has sent the first `q` events of source `i`. */
    ghost predicate Sending(i: nat, q: nat)
      reads this`reached, this`sent
    {
      && i < |env.sources| && i + 1 < |script.starts| && reached == i + 1 && |sent| == script.starts[i] + q
    }

    /** Send event `q` of source `i`. */
    method SendOf(i: nat, ghost q: nat, event: Event) returns (r: Result<()>)
      requires Valid() && Scripted() && Sending(i, q) && q < |EventsOf(env, i, original)|
      requires |sent| < U64_MAX ==> event == EventsOf(env, i, original)[q]
      modifies this`committer, this`pending, this`nextSequence, this`outstanding, this`inFlight, this`ingress, this`sent
      ensures Valid() && (if r.Ok? then Sending(i, q + 1) else Sending(i, q))
      ensures r.Err? ==> Halted(r.error)
    {
      NextOfSource(env, original, script, sent, i, q);
      InsideSource(env, original, script, i, q);
      r := Send(event);
    }

    method SendSample(i: nat, k: nat) returns (r: Result<()>)
      requires Valid() && Scripted() && Sending(i, k + 1) && Begins(env, i, original) && k < |env.sources[i].samples|
      modifies this`committer, this`pending, this`nextSequence, this`outstanding, this`inFlight, this`ingress, this`sent
      ensures Valid() && (if r.Ok? then Sending(i, k + 2) else Sending(i, k + 1))
      ensures r.Err? ==> Halted(r.error)
    {
      EventsOfOpened(env, original, i);
      r := SendOf(i, k + 1, Sample(env.sources[i].samples[k]));
    }

    /** `ingest_source_samples`: a signal may interrupt between any two samples. */
    method SendSamples(i: nat) returns (r: Result<()>)
      requires Valid() && Scripted() && Sending(i, 1) && Begins(env, i, original)
      modifies this`committer, this`pending, this`nextSequence, this`outstanding, this`inFlight, this`ingress, this`sent
      ensures Valid() && reached == i + 1
      ensures r.Ok? ==> Sending(i, |env.sources[i].samples| + 1)
      ensures r.Err? ==> Halted(r.error)
    {
      var samples := env.sources[i].samples;
      var k := 0;
      while k < |samples|
        invariant k <= |samples| && Valid() && Sending(i, k + 1)
      {
        r := SendSample(i, k);
        if r.Err? {
          return;
        }
        k := k + 1;
      }
      r := Ok(());
    }

    /** After an ordinary error the source is aborted; out of numbers, that fails the same way. */
    method AbortUnnumbered() returns (r: Result<()>)
      requires Valid() && |sent| == U64_MAX && Halted(InvalidInput)
      modifies this`committer, this`pending, this`nextSequence, this`outstanding, this`inFlight, this`ingress, this`sent
      ensures Valid() && sent == old(sent) && r == Err(InvalidInput) && Halted(InvalidInput)
    {
      r := Send(AbortSource);
    }

    method SendBegin(i: nat, name: Name) returns (r: Result<()>)
      requires Valid() && Scripted() && Sending(i, 0) && Begins(env, i, original) && env.sources[i].name == Some(name)
      modifies this`committer, this`pending, this`nextSequence, this`outstanding, this`inFlight, this`ingress, this`sent
      ensures Valid() && (if r.Ok? then Sending(i, 1) else reached == i + 1 && Halted(r.error))
    {
      EventsOfOpened(env, original, i);
      r := SendOf(i, 0, BeginSource(i, name));
    }

    /** The last event of an opened source. */
    method SendLast(i: nat) returns (r: Result<()>)
      requires Valid() && Scripted() && i < |env.sources| && Begins(env, i, original)
        && Sending(i, |env.sources[i].samples| + 1)
      modifies this`committer, this`pending, this`nextSequence, this`outstanding, this`inFlight, this`ingress, this`sent
      ensures Valid() && reached == i + 1
      ensures r.Ok? ==> Sending(i, |EventsOf(env, i, original)|)
      ensures r.Err? ==> Halted(r.error)
    {
      EventsOfOpened(env, original, i);
      r := SendOf(i, |env.sources[i].samples| + 1, if env.sources[i].raises then AbortSource else EndSource);
    }

    method SendRest(i: nat) returns (r: Result<()>)
      requires Valid() && Scripted() && Sending(i, 1) && Begins(env, i, original)
      modifies this`committer, this`pending, this`nextSequence, this`outstanding, this`inFlight, this`ingress, this`sent
      ensures Valid() && reached == i + 1
      ensures r.Ok? ==> Sending(i, |EventsOf(env, i, original)|)
      ensures r.Err? ==> Halted(r.error)
    {
      r := SendSamples(i);
      if r.Ok? {
        r := SendLast(i);
      } else if r != Err(Interrupted) {
        r := AbortUnnumbered();
      }
    }

    /** A source that opens a cache: begin, samples, then end or abort. */
    method SendSource(i: nat, name: Name) returns (r: Result<()>)
      requires Valid() && Scripted() && Sending(i, 0) && Begins(env, i, original) && env.sources[i].name == Some(name)
      modifies this`committer, this`pending, this`nextSequence, this`outstanding, this`inFlight, this`ingress, this`sent
      ensures Valid() && reached == i + 1
      ensures r.Ok? ==> Sending(i, |EventsOf(env, i, original)|)
      ensures r.Err? ==> Halted(r.error)
    {
      r := SendBegin(i, name);
      if r.Ok? {
        r := SendRest(i);
      }
    }

    /** `existing_cache_result`, or the refusal to overwrite. */
    function Existing(i: nat, name: Name): Record
      requires i < |env.sources|
    {
      if env.reuse && (!env.validate || env.sources[i].existingLoads) then Success(name) else Failure(i)
    }

    /** `ingest_one_source`. */
    method IngestOne(i: nat) returns (r: Result<()>)
      requires Valid() && Scripted() && reached == i < |env.sources|
      requires |sent| == script.starts[i]
      modifies this`committer, this`pending, this`nextSequence, this`outstanding, this`inFlight,
               this`ingress, this`sent, this`reached
      ensures Valid() && reached == i + 1
      ensures r.Ok? ==> |sent| == script.starts[i + 1]
      ensures r.Err? ==> Halted(r.error)
    {
      ExistsNow(env, original, script, committer, nextSequence, i);
      var begins := env.sources[i].name.Some? && Final(env.sources[i].name.value) !in committer.disk;
      Reach(i);
      NextStart(env, original, script, i);
      match env.sources[i].name
      case None => r := SendOf(i, 0, SourceResult(i, Failure(i)));
      case Some(name) =>
        if begins {
          r := SendSource(i, name);
        } else {
          r := SendOf(i, 0, SourceResult(i, Existing(i, name)));
        }
    }

    /** The check before a source may already see the signal; otherwise the first send will. */
    method CheckSignals(i: nat) returns (r: Result<()>)
      requires Valid() && Scripted() && reached == i < |env.sources| && |sent| == script.starts[i]
      ensures r.Err? ==> Halted(r.error)
    {
      var early: bool := *;
      StartsBelowEnd(env, original, script, i);
      r := if early && signal(ingress) then Err(Interrupted) else Ok(());
    }

    /** `ingest_source_list`: a signal may interrupt before any source. */
    method IngestAll() returns (r: Result<()>)
      requires Valid() && Scripted() && reached == 0 && sent == []
      modifies this`committer, this`pending, this`nextSequence, this`outstanding, this`inFlight,
               this`ingress, this`sent, this`reached
      ensures Valid()
      ensures r.Ok? ==> sent == script.plan && reached == |env.sources|
      ensures r.Err? ==> Halted(r.error)
    {
      ScriptEnds(env, original, script);
      var i := 0;
      while i < |env.sources|
        invariant i <= |env.sources| && Valid() && reached == i && |sent| == script.starts[i]
      {
        r := CheckSignals(i);
        if r.Err? {
          return;
        }
        r := IngestOne(i);
        if r.Err? {
          return;
        }
        i := i + 1;
      }
      r := Ok(());
    }

    /** `cleanup_unfinished_source`: the caches completed so far stay, the one in progress leaves no trace. */
    method CleanUp() returns (ghost k: nat)
      requires Valid() && Scripted()
      modifies this`committer
      ensures CompletedAt(env, original, k, nextSequence) && Kept(env, original, committer, k, reached)
    {
      k := CleanedKeeps(env, original, script, committer, nextSequence, reached);
      committer := Cleaned(committer);
    }

    /** Receive until nothing is outstanding; then every event sent has been committed. */
    method Drain(signalled: bool) returns (r: Result<()>)
      requires Valid()
      modifies this`committer, this`pending, this`nextSequence, this`outstanding, this`inFlight
      ensures Valid() && old(nextSequence) <= nextSequence <= |sent|
      ensures if r.Ok? then nextSequence == |sent| && |pending| == 0 else r == Err(Interrupted) && signalled
    {
      r := Ok(());
      while outstanding > 0
        invariant Valid() && nextSequence >= old(nextSequence)
        decreases outstanding
      {
        r := CompleteOne(signalled);
        if r.Err? {
          return;
        }
      }
      CoversNothing(pending, inFlight, sent, nextSequence);
      r := Ok(());
    }

    /** `finish_incomplete`: drain every accepted event, unless another signal comes, then clean up. */
    method FinishIncomplete() returns (ghost k: nat)
      requires Valid() && Scripted()
      modifies this`committer, this`pending, this`nextSequence, this`outstanding, this`inFlight
      ensures CompletedAt(env, original, k, nextSequence) && Kept(env, original, committer, k, reached)
      ensures old(nextSequence) <= nextSequence <= |sent| && (!again ==> nextSequence == |sent|)
    {
      var _ := Drain(again);
      k := CleanUp();
    }

    /** `finish`: every event has been committed, and nothing waits for a number that never came. */
    method Finish() returns (r: Result<seq<Option<Record>>>, ghost k: nat)
      requires Valid() && Scripted()
      requires sent == script.plan && reached == |env.sources|
      modifies this`committer, this`pending, this`nextSequence, this`outstanding, this`inFlight
      ensures r.Ok? ==> r.value == committer.results && committer == AfterSources(env, original, |env.sources|)
      ensures r.Err? ==> r == Err(Interrupted) && signal(|sent|)
      ensures r.Err? ==> CompletedAt(env, original, k, nextSequence) && Kept(env, original, committer, k, reached)
      ensures old(nextSequence) <= nextSequence <= |sent|
    {
      k := 0;
      var drained := Drain(signal(ingress));
      match drained
      case Err(error) =>
        k := CleanUp();
        r := Err(error);
      case Ok(_) =>
        if |pending| > 0 {
          return Err(WorkerFailed), k;
        }
        AllCommitted(env, original, script, committer);
        r := Ok(committer.results);
    }

    /** Between calls the reorder buffer holds none with one job at a time, and never the event waited for. */
    lemma PendingBounded()
      requires Valid()
      ensures |pending| <= if parallelism == 1 || sent == [] then 0 else |sent| - 1
      ensures parallelism == 1 || Min(|script.plan|, U64_MAX) <= parallelism + 1 ==> |pending| <= parallelism
    {
      CoversCount(pending, inFlight, sent, nextSequence);
      if |inFlight| == 0 {
        CoversNothing(pending, inFlight, sent, nextSequence);
      }
    }

    /** Event 0 has not come back, so nothing has been committed. */
    ghost predicate FirstIsSlow()
      reads this`nextSequence, this`inFlight, this`sent
    {
      nextSequence == 0 && (sent != [] ==> 0 in inFlight)
    }

    /** Some job other than the first comes back. */
    method ReceiveOther()
      requires Valid() && FirstIsSlow() && outstanding >= 2
      modifies this`committer, this`pending, this`nextSequence, this`outstanding, this`inFlight
      ensures Valid() && FirstIsSlow() && outstanding == old(outstanding) - 1
    {
      if inFlight.Keys <= {0} {
        SubsetSize(inFlight.Keys, {0});
      }
      var k: nat :| k in inFlight && k != 0;
      var _ := Receive(k);
    }

    /** `submit` in the slowest order for the first event: a job is received only when the credit is used up. */
    method SendSlowly(event: Event)
      requires Valid() && FirstIsSlow() && parallelism >= 2 && |sent| < U64_MAX && !signal(|sent|)
      requires IsNext(script, sent, reached, event)
      modifies this`committer, this`pending, this`nextSequence, this`outstanding, this`inFlight, this`ingress, this`sent
      ensures Valid() && FirstIsSlow() && sent == old(sent) + [event]
    {
      if outstanding == parallelism {
        ReceiveOther();
      }
      HandOver(event);
    }

    method EventSlowly(i: nat, ghost q: nat, event: Event)
      requires Valid() && Scripted() && FirstIsSlow() && parallelism >= 2 && Sending(i, q) && |sent| < U64_MAX
      requires !signal(|sent|) && q < |EventsOf(env, i, original)| && event == EventsOf(env, i, original)[q]
      modifies this`committer, this`pending, this`nextSequence, this`outstanding, this`inFlight, this`ingress, this`sent
      ensures Valid() && FirstIsSlow() && Sending(i, q + 1)
    {
      NextOfSource(env, original, script, sent, i, q);
      SendSlowly(event);
    }

    /** The events of source `i` up to the last number. */
    method SourceSlowly(i: nat, disk: Disk)
      requires Valid() && Scripted() && FirstIsSlow() && parallelism >= 2 && (forall m :: !signal(m))
      requires disk == original && reached == i < |env.sources| && |sent| == script.starts[i]
      modifies this`committer, this`pending, this`nextSequence, this`outstanding, this`inFlight,
               this`ingress, this`sent, this`reached
      ensures Valid() && FirstIsSlow() && reached == i + 1
      ensures |sent| == Min(script.starts[i + 1], U64_MAX)
    {
      Reach(i);
      NextStart(env, original, script, i);
      EventsSlowly(i, EventsOf(env, i, disk));
    }

    method EventsSlowly(i: nat, events: seq<Event>)
      requires Valid() && Scripted() && FirstIsSlow() && parallelism >= 2 && (forall m :: !signal(m))
      requires Sending(i, 0) && events == EventsOf(env, i, original)
      modifies this`committer, this`pending, this`nextSequence, this`outstanding, this`inFlight, this`ingress, this`sent
      ensures Valid() && FirstIsSlow() && |sent| == Min(script.starts[i] + |events|, U64_MAX)
    {
      var q := 0;
      while q < |events| && ingress < U64_MAX
        invariant Valid() && FirstIsSlow() && Sending(i, q) && q <= |events|
      {
        EventSlowly(i, q, events[q]);
        q := q + 1;
      }
    }

    /** `ingest_source_list` in that order. */
    method IngestSlowly(disk: Disk)
      requires Valid() && Scripted() && FirstIsSlow() && parallelism >= 2 && (forall m :: !signal(m))
      requires disk == original && reached == 0 && sent == []
      modifies this`committer, this`pending, this`nextSequence, this`outstanding, this`inFlight,
               this`ingress, this`sent, this`reached
      ensures Valid() && FirstIsSlow()
      ensures |sent| == Min(|EventsUpTo(env, |env.sources|, original)|, U64_MAX)
    {
      ScriptEnds(env, original, script);
      var i := 0;
      while i < |env.sources| && ingress < U64_MAX
        invariant i <= |env.sources| && Valid() && FirstIsSlow() && reached == i
        invariant |sent| == Min(script.starts[i], U64_MAX)
      {
        SourceSlowly(i, disk);
        i := i + 1;
      }
      StartsGrow(env, original, script, i);
    }

    /** The drain of `finish` and `finish_incomplete`, with the first event still last. */
    method DrainSlowly()
      requires Valid() && FirstIsSlow()
      modifies this`committer, this`pending, this`nextSequence, this`outstanding, this`inFlight
      ensures Valid() && FirstIsSlow() && outstanding <= 1
    {
      while outstanding > 1
        invariant Valid() && FirstIsSlow()
        decreases outstanding
      {
        ReceiveOther();
      }
    }

    /** How far this run has come, with `k` sources complete. */
    ghost function Standing(k: nat): Progress
      reads this`sent, this`nextSequence, this`reached
    {
      Progress(|sent|, nextSequence, k, reached)
    }

    /** The end of a run whose ingestion stopped early. */
    method Abandon(ghost error: Error) returns (ghost p: Progress)
      requires Valid() && Scripted() && Halted(error)
      modifies this`committer, this`pending, this`nextSequence, this`outstanding, this`inFlight
      ensures StopsAt(env, original, signal, again, p, error) && Leaves(env, original, p, committer.disk)
    {
      assert QuietBefore(signal, |sent|);
      ghost var k := FinishIncomplete();
      p := Standing(k);
      KeptLeaves(env, original, p, committer);
      StopReported(env, original, signal, again, script, p, error);
    }

    /** The end of a run that ingested everything. */
    method Conclude() returns (r: Result<seq<Option<Record>>>, ghost p: Progress)
      requires Valid() && Scripted()
      requires sent == script.plan && reached == |env.sources|
      modifies this`committer, this`pending, this`nextSequence, this`outstanding, this`inFlight
      ensures r.Ok? ==> r.value == committer.results && committer == AfterSources(env, original, |env.sources|)
      ensures r.Ok? ==> QuietBefore(signal, |script.plan|)
      ensures r.Err? ==> StopsAt(env, original, signal, again, p, r.error) && Leaves(env, original, p, committer.disk)
    {
      assert QuietBefore(signal, |sent|);
      ghost var k;
      r, k := Finish();
      p := Standing(k);
      if r.Err? {
        KeptLeaves(env, original, p, committer);
        StopReported(env, original, signal, again, script, p, r.error);
      }
    }

    /** Ingest everything and finish, or stop early and clean up. */
    method Run() returns (r: Result<seq<Option<Record>>>, ghost p: Progress)
      requires Valid() && Scripted() && reached == 0 && sent == []
      modifies this`committer, this`pending, this`nextSequence, this`outstanding, this`inFlight,
               this`ingress, this`sent, this`reached
      ensures r.Ok? ==> r.value == committer.results && committer == AfterSources(env, original, |env.sources|)
      ensures r.Ok? ==> QuietBefore(signal, |script.plan|)
      ensures r.Err? ==> StopsAt(env, original, signal, again, p, r.error) && Leaves(env, original, p, committer.disk)
    {
      var ingested := IngestAll();
      match ingested
      case Err(error) =>
        p := Abandon(error);
        r := Err(error);
      case Ok(_) => r, p := Conclude();
    }
  }

  /** `ensure_unique_source_paths`: sources whose name cannot be read are skipped. */
  method EnsureUnique(env: Env) returns (r: bool)
    ensures r <==> env.UniqueNames()
  {
    var seen: set<Name> := {};
    for i := 0 to |env.sources|
      invariant forall n :: n in seen <==> exists j :: 0 <= j < i && env.sources[j].name == Some(n)
      invariant forall j, k :: 0 <= j < k < i && env.sources[j].name.Some? && env.sources[k].name.Some? ==>
        env.sources[j].name.value != env.sources[k].name.value
    {
      match env.sources[i].name
      case None =>
      case Some(name) =>
        if name in seen {
          return false;
        }
        seen := seen + {name};
    }
    r := true;
  }

  /** `complete_write_results`: an empty slot would be an internal error. */
  method CompleteResults(results: seq<Option<Record>>) returns (r: Result<seq<Record>>)
    ensures r.Ok? <==> forall j :: 0 <= j < |results| ==> results[j].Some?
    ensures r.Ok? ==> |r.value| == |results| && forall j :: 0 <= j < |results| ==> results[j] == Some(r.value[j])
    ensures r.Err? ==> r.error == WorkerFailed
  {
    var all := [];
    for i := 0 to |results|
      invariant |all| == i && forall j :: 0 <= j < i ==> results[j] == Some(all[j])
    {
      match results[i]
      case None => return Err(WorkerFailed);
      case Some(record) => all := all + [record];
    }
    r := Ok(all);
  }

  /**
   The whole operation, for every completion order and every pattern of signals. A normal return gives
   each source its own result and leaves the directory that writing the sources one by one leaves, and
   it is normal when no signal comes. An interrupted run is told by `StopsAt` and `Leaves`. An internal
   error never happens.
   */
  method WriteSourceList(env: Env, disk: Disk, parallelism: nat, signal: nat -> bool, again: bool)
    returns (r: Result<seq<Record>>, after: Disk, ghost p: Progress)
    requires parallelism > 0
    ensures !env.UniqueNames() ==> r == Err(InvalidInput) && after == disk
    ensures env.UniqueNames() && r.Ok? ==>
      && after == AfterSources(env, disk, |env.sources|).disk
      && |r.value| == |env.sources|
      && forall j :: 0 <= j < |env.sources| ==>
           r.value[j] == Outcome(env, j, disk) && RightAnswer(env, disk, j, r.value[j])
    ensures env.UniqueNames() && r.Ok? ==> QuietBefore(signal, |EventsUpTo(env, |env.sources|, disk)|)
    ensures env.UniqueNames() && r.Err? ==> StopsAt(env, disk, signal, again, p, r.error) && Leaves(env, disk, p, after)
  {
    p := Progress(0, 0, 0, 0);
    var unique := EnsureUnique(env);
    if !unique {
      return Err(InvalidInput), disk, p;
    }
    var slots;
    slots, after, p := RunAll(env, disk, parallelism, signal, again);
    match slots
    case Err(error) => r := Err(error);
    case Ok(all) =>
      r := CompleteResults(all);
      AllAnswersRight(env, disk);
  }

  lemma AllAnswersRight(env: Env, disk: Disk)
    ensures forall j :: 0 <= j < |env.sources| ==> RightAnswer(env, disk, j, Outcome(env, j, disk))
  {
    forall j | 0 <= j < |env.sources|
      ensures RightAnswer(env, disk, j, Outcome(env, j, disk))
    {
      OutcomeIsRight(env, disk, j);
    }
  }

  /** The pipeline's run over unique sources, told in terms of the reference. */
  method RunAll(env: Env, disk: Disk, parallelism: nat, signal: nat -> bool, again: bool)
    returns (r: Result<seq<Option<Record>>>, after: Disk, ghost p: Progress)
    requires parallelism > 0 && env.UniqueNames()
    ensures r.Ok? ==> r.value == AfterSources(env, disk, |env.sources|).results
    ensures r.Ok? ==> after == AfterSources(env, disk, |env.sources|).disk
    ensures r.Ok? ==> QuietBefore(signal, |EventsUpTo(env, |env.sources|, disk)|)
    ensures r.Err? ==> StopsAt(env, disk, signal, again, p, r.error) && Leaves(env, disk, p, after)
  {
    var pipeline := Open(env, disk, parallelism, signal, again);
    r, p := pipeline.Run();
    after := pipeline.committer.disk;
  }

  method Open(env: Env, disk: Disk, parallelism: nat, signal: nat -> bool, again: bool)
    returns (pipeline: SourceListPipeline)
    requires env.UniqueNames() && parallelism > 0
    ensures pipeline.Valid() && pipeline.Scripted() && pipeline.parallelism == parallelism
    ensures pipeline.env == env && pipeline.original == disk
    ensures pipeline.script == ScriptOf(env, disk) && pipeline.signal == signal && pipeline.again == again
    ensures pipeline.sent == [] && pipeline.reached == 0 && fresh(pipeline)
    ensures pipeline.pending == map[] && pipeline.inFlight == map[] && pipeline.nextSequence == 0
  {
    pipeline := new SourceListPipeline(env, disk, parallelism, signal, again, ScriptOf(env, disk));
  }

  /**
   The reorder buffer is bounded by the parallelism on every run exactly when the parallelism is one or the
   stream has at most one event more than it (`PendingBounded`). Otherwise this run exceeds it: every
   source list, any parallelism from two on, no signal, and a first event that comes back last.
   */
  method CongestedRun(env: Env, disk: Disk, parallelism: nat) returns (pipeline: SourceListPipeline)
    requires env.UniqueNames() && parallelism >= 2 && env.sources != []
    ensures pipeline.Valid() && pipeline.env == env && pipeline.original == disk && pipeline.parallelism == parallelism
    ensures |pipeline.pending| == Min(|EventsUpTo(env, |env.sources|, disk)|, U64_MAX) - 1
    ensures |pipeline.pending| > parallelism <==>
      Min(|EventsUpTo(env, |env.sources|, disk)|, U64_MAX) >= parallelism + 2
  {
    pipeline := Open(env, disk, parallelism, _ => false, false);
    pipeline.IngestSlowly(disk);
    pipeline.DrainSlowly();
    OnlyFirstOut(pipeline);
  }

  lemma OnlyFirstOut(pipeline: SourceListPipeline)
    requires pipeline.Valid() && pipeline.FirstIsSlow() && pipeline.outstanding <= 1 && pipeline.sent != []
    ensures |pipeline.pending| == |pipeline.sent| - 1
  {
    CoversCount(pipeline.pending, pipeline.inFlight, pipeline.sent, pipeline.nextSequence);
  }
}
