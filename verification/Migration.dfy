/**
 Resumable manifest upgrades.

 Published manifests change only by an atomic rename; temporaries live beside them under names of their
 own. A process may be killed at any instant, and every hook may report a failure, so the claims are
 about every state the published manifests ever pass through (`history`), not only the last one.

 The run is written against `Rules` (inspection, upgrade and digest of one manifest); `ManifestRules`
 are the repository's, and the theorems at the end are about those.
 */
module Migration {
  import opened Common
  import opened Manifests

  type Path = nat
  type Published = map<Path, JsonObject>

  datatype LoadedCache = LoadedCache(path: Path, id: u64, manifest: Manifest)

  datatype Target = Target(path: Path, id: u64, digest: nat, needsUpdate: bool)

  datatype Status = Updated | Unchanged | DurabilityUnknown

  datatype Entry = Entry(path: Path, id: u64, status: Status)

  datatype Temporary = Partial | Complete(content: JsonObject)

  datatype Rules = Rules(
    inspect: (LoadedCache, Published) -> Result<Target>,
    upgrade: (JsonObject, u64) -> JsonObject,
    digest: JsonObject -> nat)
  {
    /** An accepted target is the cache's own manifest, identity and current contents. */
    ghost predicate Sound() {
      forall c: LoadedCache, files: Published :: inspect(c, files).Ok? ==>
        var t := inspect(c, files).value;
        t.path == c.path && t.id == c.id && Untouched(t, files)
    }

    ghost predicate Untouched(t: Target, files: Published) {
      t.path in files && t.digest == digest(files[t.path])
    }

    /** The published manifests after one target: its complete upgraded form, or no change. */
    ghost function UpgradeOne(files: Published, t: Target): Published {
      if t.needsUpdate && t.path in files then files[t.path := upgrade(files[t.path], t.id)] else files
    }

    /** The published manifests once the first `n` targets are done. */
    ghost function UpgradePrefix(files: Published, targets: seq<Target>, n: nat): Published
      requires n <= |targets|
    {
      if n == 0 then files else UpgradeOne(UpgradePrefix(files, targets, n - 1), targets[n - 1])
    }

    ghost predicate Inspected(caches: seq<LoadedCache>, files: Published, targets: seq<Target>) {
      && |targets| == |caches|
      && forall i :: 0 <= i < |caches| ==> inspect(caches[i], files) == Ok(targets[i])
    }

    /** What the preflight accepts: every cache inspected, no path and no identity twice. */
    ghost predicate Preflighted(caches: seq<LoadedCache>, files: Published, targets: seq<Target>) {
      Inspected(caches, files, targets) && DistinctTargets(targets)
    }
  }

  ghost predicate DistinctTargets(targets: seq<Target>) {
    forall i, j :: 0 <= i < j < |targets| ==> targets[i].path != targets[j].path && targets[i].id != targets[j].id
  }

  lemma {:induction false} PrefixElsewhere(rules: Rules, files: Published, targets: seq<Target>, n: nat, path: Path)
    requires n <= |targets| && forall i :: 0 <= i < n ==> targets[i].path != path
    ensures path in rules.UpgradePrefix(files, targets, n) <==> path in files
    ensures path in files ==> rules.UpgradePrefix(files, targets, n)[path] == files[path]
    decreases n
  {
    if n > 0 {
      PrefixElsewhere(rules, files, targets, n - 1, path);
    }
  }

  /** Work on earlier targets leaves the later ones as they were inspected. */
  lemma StillUntouched(rules: Rules, caches: seq<LoadedCache>, original: Published, targets: seq<Target>, i: nat)
    requires rules.Sound() && rules.Preflighted(caches, original, targets) && i < |targets|
    ensures rules.Untouched(targets[i], rules.UpgradePrefix(original, targets, i))
  {
    assert rules.inspect(caches[i], original).Ok?;
    PrefixElsewhere(rules, original, targets, i, targets[i].path);
  }

  // ---------------------------------------------------------------- the run

  class Migrator {
    const rules: Rules
    const hook: nat -> bool
    var ticks: nat
    var manifests: Published
    var temporaries: map<nat, Temporary>
    var nextTemporary: nat
    ghost var history: seq<Published>

    constructor (rules: Rules, manifests: Published, orphans: map<nat, Temporary>, hook: nat -> bool)
      ensures this.manifests == manifests && temporaries == orphans && history == [manifests]
      ensures this.hook == hook && this.rules == rules
    {
      this.rules, this.hook, this.manifests, temporaries := rules, hook, manifests, orphans;
      ticks, nextTemporary := 0, 0;
      history := [manifests];
    }

    /** One hook call or fallible system call; the run's faults are fixed by `hook`. */
    method Check() returns (ok: bool)
      modifies this`ticks
      ensures ok == hook(old(ticks)) && ticks == old(ticks) + 1
    {
      ok := hook(ticks);
      ticks := ticks + 1;
    }

    /** `create_temporary`: names left by killed runs are skipped, never reused. */
    method CreateTemporary() returns (name: nat)
      modifies this`temporaries, this`nextTemporary
      ensures name !in old(temporaries) && temporaries == old(temporaries)[name := Partial]
    {
      name := nextTemporary;
      var candidates := temporaries.Keys;
      while name in candidates
        invariant forall k :: k in temporaries && k >= name ==> k in candidates
        decreases |candidates|
      {
        candidates := candidates - {name};
        name := name + 1;
      }
      nextTemporary := name + 1;
      temporaries := temporaries[name := Partial];
    }

    /** Write, flush and rename the temporary; `false` means the manifest was not replaced. */
    method Replace(t: Target, name: nat, content: JsonObject) returns (replaced: bool)
      requires name in temporaries && t.path in manifests
      modifies this`ticks, this`manifests, this`temporaries, this`history
      ensures temporaries == old(temporaries) - {name}
      ensures replaced ==> manifests == old(manifests)[t.path := content] && history == old(history) + [manifests]
      ensures !replaced ==> manifests == old(manifests) && history == old(history)
      ensures !replaced ==> ticks > 0 && !hook(ticks - 1)
      ensures (forall n :: hook(n)) ==> replaced
    {
      replaced := false;
      var write := Check();
      if write {
        temporaries := temporaries[name := Complete(content)];
        var flush := Check();
        if flush {
          var rename := Check();
          if rename {
            manifests := manifests[t.path := temporaries[name].content];
            history := history + [manifests];
            replaced := true;
          }
        }
      }
      temporaries := temporaries - {name};
    }

    /**
     `update_target`: write a temporary, then replace the manifest in one step. A manifest that is gone or
     has changed since the inspection is left alone. A handled failure removes its temporary; only a failure
     after the rename reports the replacement.
     */
    method UpdateTarget(t: Target) returns (status: Option<Status>)
      modifies this`ticks, this`manifests, this`temporaries, this`nextTemporary, this`history
      ensures !old(rules.Untouched(t, manifests)) ==> status.None?
      ensures old(rules.Untouched(t, manifests)) ==>
        ticks > 0 && (hook(ticks - 1) <==> status in {Some(Updated), Some(Unchanged)})
      ensures temporaries == old(temporaries)
      ensures manifests == if status.None? then old(manifests) else rules.UpgradeOne(old(manifests), t)
      ensures history == old(history) || (status.Some? && history == old(history) + [manifests])
      ensures status.Some? ==> (status.value == Unchanged <==> !t.needsUpdate)
      ensures (forall n :: hook(n)) && old(rules.Untouched(t, manifests)) ==>
        status == Some(if t.needsUpdate then Updated else Unchanged)
    {
      var inspect := Check();
      if !inspect || t.path !in manifests || rules.digest(manifests[t.path]) != t.digest {
        return None;
      }
      if !t.needsUpdate {
        var sync := Check();
        return if sync then Some(Unchanged) else None;
      }
      var content := rules.upgrade(manifests[t.path], t.id);
      var name := CreateTemporary();
      var replaced := Replace(t, name, content);
      if !replaced {
        return None;
      }
      var sync := Check();
      return Some(if sync then Updated else DurabilityUnknown);
    }

    /** `preflight`: the whole collection is judged before anything is replaced. */
    method Preflight(caches: seq<LoadedCache>) returns (r: Result<seq<Target>>)
      requires rules.Sound()
      modifies this`ticks
      ensures r.Ok? ==> rules.Preflighted(caches, manifests, r.value)
      ensures (forall n :: hook(n)) ==> r.Ok? || forall ts :: !rules.Preflighted(caches, manifests, ts)
    {
      var targets: seq<Target> := [];
      var paths, ids := {}, {};
      for i := 0 to |caches|
        invariant |targets| == i && DistinctTargets(targets)
        invariant paths == PathsOf(targets) && ids == IdsOf(targets)
        invariant forall k :: 0 <= k < i ==> rules.inspect(caches[k], manifests) == Ok(targets[k])
      {
        var inspect := Check();
        if !inspect {
          return Err(Interrupted);
        }
        var target := rules.inspect(caches[i], manifests);
        if target.Err? || target.value.path in paths || target.value.id in ids {
          RefusedForCause(rules, caches, manifests, targets, i);
          return Err(InvalidInput);
        }
        AddTarget(targets, target.value);
        paths, ids := paths + {target.value.path}, ids + {target.value.id};
        targets := targets + [target.value];
      }
      r := Ok(targets);
    }

    /**
     `update_with_hook`: whatever fails and wherever the process dies, the published manifests are at
     every instant those after a whole number of targets, and the entries name exactly that prefix.
     */
    method Update(caches: seq<LoadedCache>, version: nat)
      returns (entries: seq<Entry>, failed: bool, ghost targets: seq<Target>)
      requires rules.Sound() && history == [manifests]
      modifies this
      ensures temporaries == old(temporaries)
      ensures version != 3 ==> failed && targets == []
      ensures targets != [] || !failed ==> rules.Preflighted(caches, old(manifests), targets)
      ensures |entries| <= |targets| && manifests == rules.UpgradePrefix(old(manifests), targets, |entries|)
      ensures !failed ==> |entries| == |targets|
      ensures AllPrefixes(rules, history, old(manifests), targets, |entries|)
      ensures forall i :: 0 <= i < |entries| ==> Reports(entries[i], targets[i], failed && i == |entries| - 1)
      ensures (forall n :: hook(n)) && version == 3 && (exists ts :: rules.Preflighted(caches, old(manifests), ts)) ==>
        !failed
    {
      entries, failed, targets := [], true, [];
      assert rules.UpgradePrefix(manifests, targets, 0) == manifests;
      assert IsPrefix(rules, manifests, manifests, targets, 0);
      if version != 3 {
        return;
      }
      var preflight := Preflight(caches);
      if preflight.Err? {
        return;
      }
      targets := preflight.value;
      entries, failed := Apply(caches, preflight.value);
    }

    /** The replacement loop over preflighted targets. */
    method Apply(ghost caches: seq<LoadedCache>, targets: seq<Target>) returns (entries: seq<Entry>, failed: bool)
      requires rules.Sound() && history == [manifests] && rules.Preflighted(caches, manifests, targets)
      modifies this`ticks, this`manifests, this`temporaries, this`nextTemporary, this`history
      ensures temporaries == old(temporaries)
      ensures |entries| <= |targets| && manifests == rules.UpgradePrefix(old(manifests), targets, |entries|)
      ensures !failed ==> |entries| == |targets|
      ensures AllPrefixes(rules, history, old(manifests), targets, |entries|)
      ensures forall i :: 0 <= i < |entries| ==> Reports(entries[i], targets[i], failed && i == |entries| - 1)
      ensures (forall n :: hook(n)) ==> !failed
    {
      entries, failed := [], true;
      for i := 0 to |targets|
        invariant |entries| == i && manifests == rules.UpgradePrefix(old(manifests), targets, i)
        invariant temporaries == old(temporaries)
        invariant AllPrefixes(rules, history, old(manifests), targets, i)
        invariant forall k :: 0 <= k < i ==> Reports(entries[k], targets[k], false)
      {
        StillUntouched(rules, caches, old(manifests), targets, i);
        ghost var before := history;
        var status := UpdateTarget(targets[i]);
        if status.None? {
          return;
        }
        PrefixesGrow(rules, before, history, old(manifests), targets, i);
        entries := entries + [Entry(targets[i].path, targets[i].id, status.value)];
        if status.value == DurabilityUnknown {
          return;
        }
      }
      failed := false;
    }
  }

  /** Each state the manifests pass through is some whole prefix of the migration. */
  ghost predicate AllPrefixes(rules: Rules, history: seq<Published>, original: Published, targets: seq<Target>, n: nat)
    requires n <= |targets|
  {
    forall h :: h in history ==> IsPrefix(rules, h, original, targets, n)
  }

  ghost predicate IsPrefix(rules: Rules, h: Published, original: Published, targets: seq<Target>, n: nat)
    requires n <= |targets|
  {
    exists j :: 0 <= j <= n && h == rules.UpgradePrefix(original, targets, j)
  }

  lemma PrefixesGrow(
    rules: Rules, before: seq<Published>, after: seq<Published>, original: Published, targets: seq<Target>, n: nat)
    requires n < |targets| && AllPrefixes(rules, before, original, targets, n)
    requires after == before || after == before + [rules.UpgradePrefix(original, targets, n + 1)]
    ensures AllPrefixes(rules, after, original, targets, n + 1)
  {
    forall h | h in after ensures IsPrefix(rules, h, original, targets, n + 1) {
      if h in before {
        assert IsPrefix(rules, h, original, targets, n);
      }
    }
  }

  /** An entry names its target, and its status says what was done to it. */
  ghost predicate Reports(e: Entry, t: Target, lastOfFailure: bool) {
    && e.path == t.path && e.id == t.id
    && (e.status == Unchanged <==> !t.needsUpdate)
    && (e.status == DurabilityUnknown ==> lastOfFailure)
  }

  ghost function PathsOf(targets: seq<Target>): set<Path> { set t | t in targets :: t.path }

  ghost function IdsOf(targets: seq<Target>): set<u64> { set t | t in targets :: t.id }

  lemma AddPath(targets: seq<Target>, t: Target)
    ensures PathsOf(targets + [t]) == PathsOf(targets) + {t.path}
  {
    var more := targets + [t];
    assert forall x :: x in more <==> x in targets || x == t;
  }

  lemma AddId(targets: seq<Target>, t: Target)
    ensures IdsOf(targets + [t]) == IdsOf(targets) + {t.id}
  {
    var more := targets + [t];
    assert forall x :: x in more <==> x in targets || x == t;
  }

  lemma AddDistinct(targets: seq<Target>, t: Target)
    requires DistinctTargets(targets) && t.path !in PathsOf(targets) && t.id !in IdsOf(targets)
    ensures DistinctTargets(targets + [t])
  {
    var more := targets + [t];
    forall i, j | 0 <= i < j < |more|
      ensures more[i].path != more[j].path && more[i].id != more[j].id
    {
      assert targets[i] in targets;
      assert targets[i].path in PathsOf(targets) && targets[i].id in IdsOf(targets);
    }
  }

  lemma AddTarget(targets: seq<Target>, t: Target)
    requires DistinctTargets(targets) && t.path !in PathsOf(targets) && t.id !in IdsOf(targets)
    ensures DistinctTargets(targets + [t])
    ensures PathsOf(targets + [t]) == PathsOf(targets) + {t.path} && IdsOf(targets + [t]) == IdsOf(targets) + {t.id}
  {
    AddPath(targets, t);
    AddId(targets, t);
    AddDistinct(targets, t);
  }

  /** A refusal has a cause that no choice of targets could have avoided. */
  lemma RefusedForCause(rules: Rules, caches: seq<LoadedCache>, files: Published, targets: seq<Target>, i: nat)
    requires i < |caches| && |targets| == i
    requires forall k :: 0 <= k < i ==> rules.inspect(caches[k], files) == Ok(targets[k])
    requires rules.inspect(caches[i], files).Ok? ==>
               || rules.inspect(caches[i], files).value.path in PathsOf(targets)
               || rules.inspect(caches[i], files).value.id in IdsOf(targets)
    ensures forall ts :: !rules.Preflighted(caches, files, ts)
  {
    forall ts: seq<Target> | rules.Inspected(caches, files, ts) ensures !DistinctTargets(ts) {
      assert rules.inspect(caches[i], files) == Ok(ts[i]);
      var t :| t in targets && (t.path == ts[i].path || t.id == ts[i].id);
      var k :| 0 <= k < i && targets[k] == t;
      assert rules.inspect(caches[k], files) == Ok(ts[k]);
      assert ts[k] == t;
    }
  }

  // ---------------------------------------------------------------- any prefix, path by path

  /** What the manifest of target `i` is after `n` targets: its original, or its complete upgrade. */
  lemma {:induction false} PrefixAt(rules: Rules, files: Published, targets: seq<Target>, n: nat, i: nat)
    requires n <= |targets| && i < |targets| && DistinctTargets(targets) && targets[i].path in files
    ensures targets[i].path in rules.UpgradePrefix(files, targets, n)
    ensures rules.UpgradePrefix(files, targets, n)[targets[i].path] ==
            if i < n && targets[i].needsUpdate then rules.upgrade(files[targets[i].path], targets[i].id)
            else files[targets[i].path]
    decreases n
  {
    if n > 0 {
      PrefixAt(rules, files, targets, n - 1, i);
    }
  }

  lemma {:induction false} PrefixKeys(rules: Rules, files: Published, targets: seq<Target>, n: nat)
    requires n <= |targets|
    ensures rules.UpgradePrefix(files, targets, n).Keys == files.Keys
    decreases n
  {
    if n > 0 {
      PrefixKeys(rules, files, targets, n - 1);
    }
  }

  /** Targets of a second run over the same paths, where the first `j` are already done. */
  ghost predicate Resumes(targets: seq<Target>, again: seq<Target>, j: nat) {
    && |again| == |targets| && j <= |targets|
    && forall i :: 0 <= i < |targets| ==>
         && again[i].path == targets[i].path && again[i].id == targets[i].id
         && (again[i].needsUpdate <==> i >= j && targets[i].needsUpdate)
  }

  lemma ResumeAt(rules: Rules, files: Published, targets: seq<Target>, again: seq<Target>, j: nat, i: nat)
    requires DistinctTargets(targets) && DistinctTargets(again) && Resumes(targets, again, j) && i < |targets|
    requires targets[i].path in files
    ensures var p, rest := targets[i].path, rules.UpgradePrefix(files, targets, j);
            && p in rules.UpgradePrefix(rest, again, |again|) && p in rules.UpgradePrefix(files, targets, |targets|)
            && rules.UpgradePrefix(rest, again, |again|)[p] == rules.UpgradePrefix(files, targets, |targets|)[p]
  {
    PrefixAt(rules, files, targets, j, i);
    PrefixAt(rules, files, targets, |targets|, i);
    PrefixAt(rules, rules.UpgradePrefix(files, targets, j), again, |again|, i);
  }

  /** Finishing from any prefix gives what an undisturbed run gives. */
  lemma ResumeConverges(rules: Rules, files: Published, targets: seq<Target>, again: seq<Target>, j: nat)
    requires DistinctTargets(targets) && DistinctTargets(again) && Resumes(targets, again, j)
    requires forall i :: 0 <= i < |targets| ==> targets[i].path in files
    ensures rules.UpgradePrefix(rules.UpgradePrefix(files, targets, j), again, |again|) ==
            rules.UpgradePrefix(files, targets, |targets|)
  {
    var rest := rules.UpgradePrefix(files, targets, j);
    var resumed, straight := rules.UpgradePrefix(rest, again, |again|), rules.UpgradePrefix(files, targets, |targets|);
    PrefixKeys(rules, files, targets, j);
    PrefixKeys(rules, rest, again, |again|);
    PrefixKeys(rules, files, targets, |targets|);
    forall p | p in straight ensures resumed[p] == straight[p] {
      if i :| 0 <= i < |targets| && targets[i].path == p {
        ResumeAt(rules, files, targets, again, j, i);
      } else {
        PrefixElsewhere(rules, files, targets, j, p);
        PrefixElsewhere(rules, files, targets, |targets|, p);
        PrefixElsewhere(rules, rest, again, |again|, p);
      }
    }
  }

  // ---------------------------------------------------------------- the repository's manifests

  /** `inspect_target`, apart from the duplicate check over the whole collection. */
  function InspectTarget(cache: LoadedCache, files: Published, hash: JsonObject -> nat): (r: Result<Target>) {
    if cache.path !in files then Err(Io)
    else match Parse(files[cache.path])
      case Err(e) => Err(e)
      case Ok(current) =>
        if !current.V2? && current.id != cache.id then Err(InvalidCache)
        else if !cache.manifest.V2? && current.V2? then Err(InvalidCache)
        else
          var expected := if current.V2? then cache.manifest else cache.manifest.IntoV3(cache.id);
          if expected.fields != current.fields then Err(InvalidCache)
          else Ok(Target(cache.path, cache.id, hash(files[cache.path]), current.V2?))
  }

  function UpgradeContent(content: JsonObject, id: u64): (r: JsonObject) {
    match Parse(content)
    case Err(_) => content
    case Ok(m) => Serialize(m.IntoV3(id))
  }

  function ManifestRules(hash: JsonObject -> nat): (r: Rules) {
    Rules((c: LoadedCache, files: Published) => InspectTarget(c, files, hash),
          (content: JsonObject, id: u64) => UpgradeContent(content, id), hash)
  }

  /** A manifest on disk against the one that was loaded: the same, or its upgrade. */
  ghost predicate StillLoaded(loaded: Manifest, id: u64, current: Manifest) {
    if current.V2? then loaded.V2? && current.fields == loaded.fields
    else
      && current.id == id
      && current.fields.known == loaded.fields.known
      && current.fields.extra == if loaded.V2? then loaded.fields.extra - {"cache_id"} else loaded.fields.extra
  }

  /**
   A target is accepted exactly when its manifest is there, parses, and is still the loaded one or its upgrade
   under the loaded identity; one that was changed, downgraded or given another identity is refused. It needs
   an update exactly while it is v2.
   */
  lemma InspectsExactly(cache: LoadedCache, files: Published, hash: JsonObject -> nat)
    ensures InspectTarget(cache, files, hash).Ok? <==>
      && cache.path in files && Parse(files[cache.path]).Ok?
      && StillLoaded(cache.manifest, cache.id, Parse(files[cache.path]).value)
    ensures InspectTarget(cache, files, hash).Ok? ==>
      InspectTarget(cache, files, hash).value ==
      Target(cache.path, cache.id, hash(files[cache.path]), files[cache.path].fields["format_version"] == Num(2))
  {
    if cache.path in files && Parse(files[cache.path]).Ok? {
      MalformedRefused(files[cache.path]);
    }
  }

  lemma ManifestRulesSound(hash: JsonObject -> nat)
    ensures ManifestRules(hash).Sound()
  {
    var rules := ManifestRules(hash);
    forall c: LoadedCache, files: Published | rules.inspect(c, files).Ok?
      ensures var t := rules.inspect(c, files).value; t.path == c.path && t.id == c.id && rules.Untouched(t, files)
    {
      assert rules.inspect(c, files) == InspectTarget(c, files, hash);
    }
  }

  /** An upgrade is complete: it parses, keeps the storage fields, and carries the resolved identity. */
  lemma UpgradeIsComplete(content: JsonObject, id: u64)
    requires Parse(content).Ok?
    ensures Parse(UpgradeContent(content, id)) == Ok(Parse(content).value.IntoV3(id))
    ensures Parse(content).value.IntoV3(id).fields.known == Parse(content).value.fields.known
    ensures UpgradeContent(content, id).fields ==
      if Parse(content).value.V2? then content.fields["format_version" := Num(3)]["cache_id" := Num(id)]
      else content.fields
  {
    ParseIsWellFormed(content);
    UpgradeKeepsJson(content, id);
    UpgradeIsWellFormed(Parse(content).value, id);
  }

  /** A retry with the dataset loaded before the first run finds its own upgrades and accepts them. */
  lemma InspectUpgraded(cache: LoadedCache, files: Published, files': Published, hash: JsonObject -> nat, t: Target)
    requires InspectTarget(cache, files, hash) == Ok(t) && cache.path in files'
    requires files'[cache.path] == if t.needsUpdate then UpgradeContent(files[cache.path], t.id) else files[cache.path]
    ensures InspectTarget(cache, files', hash) == Ok(Target(t.path, t.id, hash(files'[cache.path]), false))
  {
    UpgradeIsComplete(files[cache.path], t.id);
  }

  /** The target a second run finds where the first `j` are done. */
  ghost function Again(targets: seq<Target>, files': Published, hash: JsonObject -> nat, j: nat): (r: seq<Target>)
    ensures |r| == |targets|
    ensures forall i :: 0 <= i < |targets| ==>
              r[i] == Target(targets[i].path, targets[i].id,
                             if targets[i].path in files' then hash(files'[targets[i].path]) else targets[i].digest,
                             i >= j && targets[i].needsUpdate)
  {
    seq(|targets|, i requires 0 <= i < |targets| =>
      Target(targets[i].path, targets[i].id,
             if targets[i].path in files' then hash(files'[targets[i].path]) else targets[i].digest,
             i >= j && targets[i].needsUpdate))
  }

  lemma PreflightResumes(
    hash: JsonObject -> nat, caches: seq<LoadedCache>, files: Published, targets: seq<Target>, j: nat)
    requires ManifestRules(hash).Preflighted(caches, files, targets) && j <= |targets|
    ensures var rest := ManifestRules(hash).UpgradePrefix(files, targets, j);
            var again := Again(targets, rest, hash, j);
            && Resumes(targets, again, j)
            && ManifestRules(hash).Preflighted(caches, rest, again)
  {
    var rules := ManifestRules(hash);
    var rest := rules.UpgradePrefix(files, targets, j);
    var again := Again(targets, rest, hash, j);
    forall i | 0 <= i < |caches| ensures rules.inspect(caches[i], rest) == Ok(again[i]) {
      assert rules.inspect(caches[i], files) == Ok(targets[i]);
      assert InspectTarget(caches[i], files, hash) == Ok(targets[i]);
      PrefixAt(rules, files, targets, j, i);
      if i < j {
        InspectUpgraded(caches[i], files, rest, hash, targets[i]);
      }
    }
  }

  /**
   Resumability: wherever an earlier run stopped, a rerun passes the preflight, ends with the same
   manifests an undisturbed run would have produced, and a run after that has nothing left to update.
   */
  lemma MigrationResumes(
    hash: JsonObject -> nat, caches: seq<LoadedCache>, files: Published, targets: seq<Target>, j: nat)
    requires ManifestRules(hash).Preflighted(caches, files, targets) && j <= |targets|
    ensures var rules := ManifestRules(hash);
            var rest := rules.UpgradePrefix(files, targets, j);
            var again := Again(targets, rest, hash, j);
            && rules.Preflighted(caches, rest, again)
            && rules.UpgradePrefix(rest, again, |again|) == rules.UpgradePrefix(files, targets, |targets|)
            && (j == |targets| ==> forall i :: 0 <= i < |again| ==> !again[i].needsUpdate)
  {
    PreflightResumes(hash, caches, files, targets, j);
    var rules := ManifestRules(hash);
    forall i | 0 <= i < |targets| ensures targets[i].path in files {
      assert rules.inspect(caches[i], files) == Ok(targets[i]);
      assert InspectTarget(caches[i], files, hash) == Ok(targets[i]);
    }
    ResumeConverges(rules, files, targets, Again(targets, rules.UpgradePrefix(files, targets, j), hash, j), j);
  }

  /**
   Crash atomicity: at every instant each manifest is its original or the complete upgrade with the resolved
   identity.
   */
  lemma CrashAtomic(
    hash: JsonObject -> nat, caches: seq<LoadedCache>, files: Published, targets: seq<Target>, j: nat, i: nat)
    requires ManifestRules(hash).Preflighted(caches, files, targets) && j <= |targets| && i < |targets|
    ensures caches[i].path in files && Parse(files[caches[i].path]).Ok?
    ensures var now := ManifestRules(hash).UpgradePrefix(files, targets, j);
            var path := caches[i].path;
            var before := Parse(files[path]).value;
            && path in now
            && Parse(now[path]) == Ok(if i < j then before.IntoV3(caches[i].id) else before)
            && (i < j ==> !Parse(now[path]).value.V2? && Parse(now[path]).value.id == caches[i].id)
  {
    var rules := ManifestRules(hash);
    assert rules.inspect(caches[i], files) == Ok(targets[i]);
    assert InspectTarget(caches[i], files, hash) == Ok(targets[i]);
    PrefixAt(rules, files, targets, j, i);
    UpgradeIsComplete(files[caches[i].path], targets[i].id);
  }

  /** `load_cache` at a list position: v2 manifests take the position as their identity. */
  ghost predicate LoadedFrom(caches: seq<LoadedCache>, files: Published) {
    forall i :: 0 <= i < |caches| ==>
      && caches[i].path in files
      && Parse(files[caches[i].path]) == Ok(caches[i].manifest)
      && i <= U64_MAX && caches[i].id == caches[i].manifest.ResolveId(i)
  }

  /** Reopening the same list in the same order after any interruption resolves every identity as before. */
  lemma ReloadKeepsIdentities(
    hash: JsonObject -> nat, caches: seq<LoadedCache>, files: Published, targets: seq<Target>, j: nat,
    reloaded: seq<LoadedCache>)
    requires ManifestRules(hash).Preflighted(caches, files, targets) && j <= |targets|
    requires LoadedFrom(caches, files)
    requires |reloaded| == |caches| && forall i :: 0 <= i < |caches| ==> reloaded[i].path == caches[i].path
    requires LoadedFrom(reloaded, ManifestRules(hash).UpgradePrefix(files, targets, j))
    ensures forall i :: 0 <= i < |caches| ==> reloaded[i].id == caches[i].id
  {
    forall i | 0 <= i < |caches| ensures reloaded[i].id == caches[i].id {
      CrashAtomic(hash, caches, files, targets, j, i);
    }
  }

  /** The list `caches`, reopened from the manifests that a run stopped after `j` targets left behind. */
  ghost predicate Reopened(
    hash: JsonObject -> nat, caches: seq<LoadedCache>, files: Published, targets: seq<Target>, j: nat,
    reloaded: seq<LoadedCache>)
  {
    && ManifestRules(hash).Preflighted(caches, files, targets) && j <= |targets|
    && LoadedFrom(caches, files)
    && |reloaded| == |caches| && (forall i :: 0 <= i < |caches| ==> reloaded[i].path == caches[i].path)
    && LoadedFrom(reloaded, ManifestRules(hash).UpgradePrefix(files, targets, j))
  }

  /** A reopened cache is accepted under its old identity, whether or not its manifest was upgraded. */
  lemma ReopenedInspects(
    hash: JsonObject -> nat, caches: seq<LoadedCache>, files: Published, targets: seq<Target>, j: nat,
    reloaded: seq<LoadedCache>, i: nat)
    requires Reopened(hash, caches, files, targets, j, reloaded) && i < |caches|
    ensures var rest := ManifestRules(hash).UpgradePrefix(files, targets, j);
            InspectTarget(reloaded[i], rest, hash) == Ok(Again(targets, rest, hash, j)[i])
  {
    var rules := ManifestRules(hash);
    ReloadKeepsIdentities(hash, caches, files, targets, j, reloaded);
    assert rules.inspect(caches[i], files) == Ok(targets[i]);
    assert InspectTarget(caches[i], files, hash) == Ok(targets[i]);
    CrashAtomic(hash, caches, files, targets, j, i);
    PrefixAt(rules, files, targets, j, i);
  }

  lemma ReopenedPreflights(
    hash: JsonObject -> nat, caches: seq<LoadedCache>, files: Published, targets: seq<Target>, j: nat,
    reloaded: seq<LoadedCache>)
    requires Reopened(hash, caches, files, targets, j, reloaded)
    ensures var rest := ManifestRules(hash).UpgradePrefix(files, targets, j);
            ManifestRules(hash).Preflighted(reloaded, rest, Again(targets, rest, hash, j))
  {
    var rest := ManifestRules(hash).UpgradePrefix(files, targets, j);
    forall i | 0 <= i < |reloaded|
      ensures ManifestRules(hash).inspect(reloaded[i], rest) == Ok(Again(targets, rest, hash, j)[i])
    {
      ReopenedInspects(hash, caches, files, targets, j, reloaded, i);
    }
  }

  /**
   The crash and rerun theorem: after a stop anywhere, the list reopened in its original order passes the
   preflight with the same identities, a rerun ends with the manifests of an undisturbed run, and once all
   targets are done a reopened list has nothing left to update.
   */
  lemma ReopenedMigrationResumes(
    hash: JsonObject -> nat, caches: seq<LoadedCache>, files: Published, targets: seq<Target>, j: nat,
    reloaded: seq<LoadedCache>)
    requires Reopened(hash, caches, files, targets, j, reloaded)
    ensures var rules := ManifestRules(hash);
            var rest := rules.UpgradePrefix(files, targets, j);
            var again := Again(targets, rest, hash, j);
            && rules.Preflighted(reloaded, rest, again)
            && (forall i :: 0 <= i < |again| ==> again[i].id == caches[i].id)
            && rules.UpgradePrefix(rest, again, |again|) == rules.UpgradePrefix(files, targets, |targets|)
            && (j == |targets| ==> forall i :: 0 <= i < |again| ==> !again[i].needsUpdate)
  {
    ReopenedPreflights(hash, caches, files, targets, j, reloaded);
    MigrationResumes(hash, caches, files, targets, j);
    TargetsKeepIds(hash, caches, files, targets);
  }

  lemma TargetsKeepIds(hash: JsonObject -> nat, caches: seq<LoadedCache>, files: Published, targets: seq<Target>)
    requires ManifestRules(hash).Preflighted(caches, files, targets)
    ensures |targets| == |caches| && forall i :: 0 <= i < |targets| ==> targets[i].id == caches[i].id
  {
    var rules := ManifestRules(hash);
    forall i | 0 <= i < |targets|
      ensures targets[i].id == caches[i].id
    {
      assert rules.inspect(caches[i], files) == Ok(targets[i]);
      assert InspectTarget(caches[i], files, hash) == Ok(targets[i]);
    }
  }

  /** A rerun that is stopped again leaves the state of some longer first run, so crashes may repeat. */
  lemma CrashesCompose(rules: Rules, files: Published, targets: seq<Target>, again: seq<Target>, j: nat, n: nat)
    requires DistinctTargets(targets) && DistinctTargets(again) && Resumes(targets, again, j) && n <= |targets|
    requires forall i :: 0 <= i < |targets| ==> targets[i].path in files
    ensures rules.UpgradePrefix(rules.UpgradePrefix(files, targets, j), again, n) ==
            rules.UpgradePrefix(files, targets, Max(j, n))
  {
    var rest, furthest := rules.UpgradePrefix(files, targets, j), Max(j, n);
    var twice, once := rules.UpgradePrefix(rest, again, n), rules.UpgradePrefix(files, targets, furthest);
    PrefixKeys(rules, files, targets, j);
    PrefixKeys(rules, rest, again, n);
    PrefixKeys(rules, files, targets, furthest);
    forall p | p in once
      ensures twice[p] == once[p]
    {
      if i :| 0 <= i < |targets| && targets[i].path == p {
        PrefixAt(rules, files, targets, j, i);
        PrefixAt(rules, files, targets, furthest, i);
        PrefixAt(rules, rest, again, n, i);
      } else {
        PrefixElsewhere(rules, files, targets, j, p);
        PrefixElsewhere(rules, files, targets, furthest, p);
        PrefixElsewhere(rules, rest, again, n, p);
      }
    }
  }

  /** What a loaded list takes its identities from: the position for v2, the stored field otherwise. */
  lemma LoadedIdentities(caches: seq<LoadedCache>, files: Published, i: nat)
    requires LoadedFrom(caches, files) && i < |caches|
    ensures caches[i].path in files
    ensures var o := files[caches[i].path];
            && "format_version" in o.fields
            && (o.fields["format_version"] == Num(2) ==> caches[i].id == i)
            && (o.fields["format_version"] != Num(2) ==>
                  "cache_id" in o.fields && o.fields["cache_id"] == Num(caches[i].id))
  {
    MalformedRefused(files[caches[i].path]);
  }
}
