/** The worker-local cache of open shard readers: bounded, and evicting the least recently used path. */
module ReaderCache {
  import opened Common

  /** Paths are only compared with one another, so numbers stand for them. */
  type Path = nat

  const MAX_CACHED_SHARD_READERS: nat := 64

  function Without(paths: seq<Path>, path: Path): (r: seq<Path>)
    ensures forall x :: x in r <==> x in paths && x != path
  {
    if paths == [] then []
    else
      var last := paths[|paths| - 1];
      assert paths == paths[..|paths| - 1] + [last];
      var rest := Without(paths[..|paths| - 1], path);
      if last == path then rest else rest + [last]
  }

  lemma {:induction false} WithoutDistinct(paths: seq<Path>, path: Path)
    requires NoDuplicates(paths)
    ensures NoDuplicates(Without(paths, path))
    ensures |Without(paths, path)| == |paths| - if path in paths then 1 else 0
    ensures path !in paths ==> Without(paths, path) == paths
    decreases |paths|
  {
    if paths != [] {
      var last := paths[|paths| - 1];
      WithoutDistinct(paths[..|paths| - 1], path);
      assert paths == paths[..|paths| - 1] + [last];
      assert last !in Without(paths[..|paths| - 1], path);
    }
  }

  /** Distinct paths of a request history, least recently used first. */
  ghost function Recency(history: seq<Path>): (r: seq<Path>)
    ensures NoDuplicates(r)
  {
    if history == [] then []
    else
      var last := history[|history| - 1];
      var before := Recency(history[..|history| - 1]);
      WithoutDistinct(before, last);
      Without(before, last) + [last]
  }

  ghost predicate IsSuffix(s: seq<Path>, whole: seq<Path>) {
    |s| <= |whole| && s == whole[|whole| - |s|..]
  }

  lemma {:induction false} WithoutConcat(a: seq<Path>, b: seq<Path>, path: Path)
    ensures Without(a + b, path) == Without(a, path) + Without(b, path)
    decreases |b|
  {
    if b == [] {
      assert a + b == a;
    } else {
      WithoutConcat(a, b[..|b| - 1], path);
      assert (a + b)[..|a + b| - 1] == a + b[..|b| - 1];
    }
  }

  /** Dropping a path from the history's order keeps a suffix a suffix. */
  lemma WithoutKeepsSuffix(s: seq<Path>, whole: seq<Path>, path: Path)
    requires IsSuffix(s, whole)
    ensures IsSuffix(Without(s, path), Without(whole, path))
  {
    var front := whole[..|whole| - |s|];
    assert whole == front + s;
    WithoutConcat(front, s, path);
  }

  lemma AppendSuffix(s: seq<Path>, whole: seq<Path>, path: Path)
    requires IsSuffix(s, whole)
    ensures IsSuffix(s + [path], whole + [path])
  {
  }

  lemma RecencyStep(history: seq<Path>, path: Path)
    ensures Recency(history + [path]) == Without(Recency(history), path) + [path]
  {
    assert (history + [path])[..|history|] == history;
  }

  /** Serving `path` next: it leaves its old place and becomes the most recent. */
  lemma ServeKeepsSuffix(recent: seq<Path>, history: seq<Path>, path: Path)
    requires IsSuffix(recent, Recency(history))
    ensures IsSuffix(Without(recent, path) + [path], Recency(history + [path]))
  {
    WithoutKeepsSuffix(recent, Recency(history), path);
    AppendSuffix(Without(recent, path), Without(Recency(history), path), path);
    RecencyStep(history, path);
  }

  /** `files` are the immutable published shards; opening one may fail. */
  class ShardReaderCache {
    const files: map<Path, seq<int>>
    var readers: map<Path, seq<int>>
    var recentPaths: seq<Path>
    ghost var served: seq<Path>

    /**
     The open readers are exactly the recency list, which is duplicate-free, bounded, and the most
     recently used end of everything served so far; each reader reads its own file.
     */
    ghost predicate Valid()
      reads this
    {
      && NoDuplicates(recentPaths)
      && readers.Keys == Elements(recentPaths)
      && |recentPaths| <= 64
      && IsSuffix(recentPaths, Recency(served))
      && (forall p :: p in readers ==> p in files && readers[p] == files[p])
    }

    constructor (files: map<Path, seq<int>>)
      ensures Valid() && this.files == files && recentPaths == [] && served == []
    {
      this.files := files;
      readers, recentPaths, served := map[], [], [];
    }

    /** `mark_recent`. */
    method MarkRecent(path: Path)
      requires Valid() && path in readers
      modifies this`recentPaths, this`served
      ensures Valid()
      ensures recentPaths == Without(old(recentPaths), path) + [path] && served == old(served) + [path]
    {
      WithoutDistinct(recentPaths, path);
      ServeKeepsSuffix(recentPaths, served, path);
      served := served + [path];
      recentPaths := Without(recentPaths, path) + [path];
      assert Elements(recentPaths) == Elements(old(recentPaths));
    }

    /** `evict_if_full`: the path that goes is the least recently used one. */
    method EvictIfFull()
      requires Valid()
      modifies this`readers, this`recentPaths
      ensures Valid() && |recentPaths| < 64
      ensures recentPaths ==
        if |old(recentPaths)| < 64 then old(recentPaths) else old(recentPaths)[1..]
      ensures readers.Keys <= old(readers.Keys)
    {
      DistinctLength(recentPaths);
      assert |readers| == |readers.Keys|;
      if |readers| >= MAX_CACHED_SHARD_READERS {
        DropOldest(recentPaths, readers.Keys);
        readers := readers - {recentPaths[0]};
        recentPaths := recentPaths[1..];
      }
    }

    /** `open_reader`: eviction happens first, so a failed open may leave one reader fewer. */
    method OpenReader(path: Path) returns (r: Result<()>)
      requires Valid() && path !in readers
      modifies this
      ensures Valid()
      ensures r.Ok? <==> path in files
      ensures r.Ok? ==> served == old(served) + [path] && path in readers
      ensures r.Ok? ==> recentPaths == (if |old(recentPaths)| < 64 then old(recentPaths)
                                        else old(recentPaths)[1..]) + [path]
      ensures r.Err? ==> served == old(served)
    {
      EvictIfFull();
      assert path !in readers;
      if path !in files {
        return Err(Io);
      }
      Admit(path);
      r := Ok(());
    }

    /** Keep a newly opened reader as the most recently used one. */
    method Admit(path: Path)
      requires Valid() && path !in readers && path in files && |recentPaths| < MAX_CACHED_SHARD_READERS
      modifies this
      ensures Valid() && path in readers
      ensures served == old(served) + [path] && recentPaths == old(recentPaths) + [path]
    {
      assert path !in Elements(recentPaths);
      WithoutDistinct(recentPaths, path);
      ServeKeepsSuffix(recentPaths, served, path);
      assert Elements(recentPaths + [path]) == Elements(recentPaths) + {path};
      readers := readers[path := files[path]];
      served := served + [path];
      recentPaths := recentPaths + [path];
    }

    /** `reader_for`, then a read at an index entry's range: the bytes are the shard's own. */
    method Read(path: Path, offset: nat, len: nat) returns (r: Result<seq<int>>)
      requires Valid()
      modifies this
      ensures Valid()
      ensures r.Ok? <==> path in files && offset + len <= |files[path]|
      ensures r.Ok? ==> r.value == files[path][offset..offset + len]
      ensures path in files ==>
        served == old(served) + [path] && recentPaths != [] && recentPaths[|recentPaths| - 1] == path
      ensures path !in files ==> served == old(served)
    {
      if path in readers {
        MarkRecent(path);
      } else {
        var opening := OpenReader(path);
        if opening.Err? {
          return Err(opening.error);
        }
      }
      if offset + len > |readers[path]| {
        return Err(InvalidCache);
      }
      r := Ok(readers[path][offset..offset + len]);
    }
  }

  lemma DropOldest(paths: seq<Path>, keys: set<Path>)
    requires paths != [] && NoDuplicates(paths) && keys == Elements(paths)
    ensures keys - {paths[0]} == Elements(paths[1..]) && NoDuplicates(paths[1..])
  {
  }

  /** An evicted path is the one whose last use lies furthest back. */
  lemma SuffixKeepsNewest(recent: seq<Path>, history: seq<Path>, kept: Path, gone: Path)
    requires IsSuffix(recent, Recency(history)) && kept in recent && gone in Recency(history) && gone !in recent
    ensures exists i, j :: 0 <= i < j < |Recency(history)| && Recency(history)[i] == gone && Recency(history)[j] == kept
  {
    var all := Recency(history);
    var front := |all| - |recent|;
    var i :| 0 <= i < |all| && all[i] == gone;
    var k :| 0 <= k < |recent| && recent[k] == kept;
    assert forall j :: front <= j < |all| ==> all[j] == recent[j - front];
    assert all[front + k] == kept;
  }
}
