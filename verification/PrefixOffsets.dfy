/** Finding a flat position among consecutive blocks of given sizes by searching their start offsets. */
module PrefixOffsets {
  import opened Common

  /** Where block `k` starts; with `k == |sizes|`, where the last one ends. */
  function Offset(sizes: seq<nat>, k: nat): (r: nat)
    requires k <= |sizes|
  {
    if k == 0 then 0 else Offset(sizes, k - 1) + sizes[k - 1]
  }

  ghost predicate AreOffsets(sizes: seq<nat>, offsets: seq<nat>) {
    |offsets| == |sizes| && forall k :: 0 <= k < |sizes| ==> offsets[k] == Offset(sizes, k)
  }

  lemma {:induction false} OffsetGrows(sizes: seq<nat>, i: nat, k: nat)
    requires i <= k <= |sizes|
    ensures Offset(sizes, i) <= Offset(sizes, k)
    ensures i < k ==> Offset(sizes, i) + sizes[i] <= Offset(sizes, k)
    decreases k
  {
    if i < k - 1 {
      OffsetGrows(sizes, i, k - 1);
    }
  }

  /** The offset loops of `ArrowMetadata::new` and `cache_offsets`: an error exactly when the total overflows. */
  method BuildOffsets(sizes: seq<nat>) returns (r: Result<seq<nat>>, total: nat)
    ensures r.Ok? <==> Offset(sizes, |sizes|) <= U64_MAX
    ensures r.Ok? ==> AreOffsets(sizes, r.value) && total == Offset(sizes, |sizes|)
    ensures r.Err? ==> r.error == InvalidInput
  {
    var offsets := [];
    total := 0;
    for k := 0 to |sizes|
      invariant |offsets| == k && total == Offset(sizes, k) && total <= U64_MAX
      invariant forall j :: 0 <= j < k ==> offsets[j] == Offset(sizes, j)
    {
      offsets := offsets + [total];
      if total + sizes[k] > U64_MAX {
        OffsetGrows(sizes, k + 1, |sizes|);
        return Err(InvalidInput), total;
      }
      total := total + sizes[k];
    }
    r := Ok(offsets);
  }

  /** `partition_point(|offset| offset <= x)` on a sorted list, by bisection. */
  function PartitionPoint(s: seq<nat>, x: nat, lo: nat, hi: nat): (r: nat)
    requires lo <= hi <= |s|
    requires forall i, j :: 0 <= i < j < |s| ==> s[i] <= s[j]
    requires forall i :: 0 <= i < lo ==> s[i] <= x
    requires forall i :: hi <= i < |s| ==> x < s[i]
    ensures lo <= r <= hi
    ensures forall i :: 0 <= i < r ==> s[i] <= x
    ensures forall i :: r <= i < |s| ==> x < s[i]
    decreases hi - lo
  {
    if lo == hi then lo
    else
      var mid := (lo + hi) / 2;
      if s[mid] <= x then PartitionPoint(s, x, mid + 1, hi) else PartitionPoint(s, x, lo, mid)
  }

  lemma OffsetsSorted(sizes: seq<nat>, offsets: seq<nat>)
    requires AreOffsets(sizes, offsets)
    ensures forall i, j :: 0 <= i < j < |offsets| ==> offsets[i] <= offsets[j]
  {
    forall i, j | 0 <= i < j < |offsets|
      ensures offsets[i] <= offsets[j]
    {
      OffsetGrows(sizes, i, j);
    }
  }

  /** The block and local row of a flat position, or nothing when no block starts at or before it. */
  function Locate(sizes: seq<nat>, offsets: seq<nat>, x: nat): (r: Option<(nat, nat)>)
    requires AreOffsets(sizes, offsets)
    ensures r.Some? <==> |sizes| > 0
    ensures r.Some? ==> r.value.0 < |sizes| && Offset(sizes, r.value.0) + r.value.1 == x
    ensures r.Some? && x < Offset(sizes, |sizes|) ==> r.value.1 < sizes[r.value.0]
    ensures r.Some? && x >= Offset(sizes, |sizes|) ==> r.value.1 >= sizes[r.value.0]
  {
    OffsetsSorted(sizes, offsets);
    var point := PartitionPoint(offsets, x, 0, |offsets|);
    assert |sizes| > 0 ==> offsets[0] == 0;
    if point == 0 then None
    else
      OffsetGrows(sizes, point, |sizes|);
      assert Offset(sizes, point) == Offset(sizes, point - 1) + sizes[point - 1];
      assert point < |sizes| ==> x < offsets[point];
      Some((point - 1, x - offsets[point - 1]))
  }

  /** A position lies in one block only, so empty blocks cannot lead the search astray. */
  lemma LocationUnique(sizes: seq<nat>, k: nat, r: nat, k': nat, r': nat)
    requires k < |sizes| && k' < |sizes| && r < sizes[k] && r' < sizes[k']
    requires Offset(sizes, k) + r == Offset(sizes, k') + r'
    ensures k == k' && r == r'
  {
    if k < k' {
      OffsetGrows(sizes, k, k');
    } else if k' < k {
      OffsetGrows(sizes, k', k);
    }
  }

  /** Searching the offsets inverts addition of the block's offset. */
  lemma LocateInverts(sizes: seq<nat>, offsets: seq<nat>, k: nat, r: nat, x: nat)
    requires AreOffsets(sizes, offsets) && k < |sizes| && r < sizes[k] && x == Offset(sizes, k) + r
    ensures x < Offset(sizes, |sizes|)
    ensures Locate(sizes, offsets, x) == Some((k, r))
  {
    OffsetGrows(sizes, k, |sizes|);
    var found := Locate(sizes, offsets, x);
    LocationUnique(sizes, k, r, found.value.0, found.value.1);
  }

  // ---------------------------------------------------------------- flat contents

  function Sizes<T>(blocks: seq<seq<T>>): (r: seq<nat>)
    ensures |r| == |blocks| && forall k :: 0 <= k < |r| ==> r[k] == |blocks[k]|
  {
    if blocks == [] then [] else Sizes(blocks[..|blocks| - 1]) + [|blocks[|blocks| - 1]|]
  }

  lemma {:induction false} OffsetOfPrefix(sizes: seq<nat>, n: nat, k: nat)
    requires k <= n <= |sizes|
    ensures Offset(sizes[..n], k) == Offset(sizes, k)
    decreases k
  {
    if k > 0 {
      OffsetOfPrefix(sizes, n, k - 1);
    }
  }

  /** Indexing the concatenation is indexing the block at its offset. */
  lemma {:induction false} FlatAt<T>(blocks: seq<seq<T>>, k: nat, r: nat)
    requires k < |blocks| && r < |blocks[k]|
    ensures var x := Offset(Sizes(blocks), k) + r; x < |Flat(blocks)| && Flat(blocks)[x] == blocks[k][r]
    decreases |blocks|
  {
    var last := |blocks| - 1;
    FlatLength(blocks);
    FlatLength(blocks[..last]);
    assert Sizes(blocks)[..last] == Sizes(blocks[..last]);
    OffsetOfPrefix(Sizes(blocks), last, k);
    OffsetOfPrefix(Sizes(blocks), last, last);
    OffsetGrows(Sizes(blocks), k + 1, |blocks|);
    if k < last {
      FlatAt(blocks[..last], k, r);
    }
  }

  /** The same for a stretch of rows within one block. */
  lemma {:induction false} FlatSlice<T>(
    blocks: seq<seq<T>>, flat: seq<T>, block: seq<T>, k: nat, r: nat, end: nat, x: nat)
    requires flat == Flat(blocks) && k < |blocks| && block == blocks[k]
    requires r <= end <= |block| && r < |block| && x == Offset(Sizes(blocks), k) + r
    ensures x + (end - r) <= |flat| && flat[x..x + (end - r)] == block[r..end]
    decreases end
  {
    if r < end {
      FlatSlice(blocks, flat, block, k, r, end - 1, x);
      FlatAt(blocks, k, end - 1);
      OneMore(flat, x, x + (end - r), block, r, end);
    } else {
      FlatAt(blocks, k, r);
    }
  }

  lemma OneMore<T>(a: seq<T>, i: nat, j: nat, b: seq<T>, k: nat, l: nat)
    requires i < j <= |a| && k < l <= |b| && a[i..j - 1] == b[k..l - 1] && a[j - 1] == b[l - 1]
    ensures a[i..j] == b[k..l]
  {
    assert a[i..j] == a[i..j - 1] + [a[j - 1]];
    assert b[k..l] == b[k..l - 1] + [b[l - 1]];
  }

  lemma {:induction false} FlatLength<T>(blocks: seq<seq<T>>)
    ensures |Flat(blocks)| == Offset(Sizes(blocks), |blocks|)
    decreases |blocks|
  {
    if blocks != [] {
      var last := |blocks| - 1;
      FlatLength(blocks[..last]);
      assert Sizes(blocks)[..last] == Sizes(blocks[..last]);
      OffsetOfPrefix(Sizes(blocks), last, last);
    }
  }

  lemma FlatAppend<T>(blocks: seq<seq<T>>, block: seq<T>)
    ensures Flat(blocks + [block]) == Flat(blocks) + block
  {
    assert (blocks + [block])[..|blocks|] == blocks;
  }
}
