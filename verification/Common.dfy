/** Result shapes, machine-integer bounds and sequence facts shared by every model. */
module Common {

  datatype Option<+T> = None | Some(value: T)

  /** The error classes the callers tell apart; message texts are not modelled. */
  datatype Error = InvalidInput | InvalidCache | WorkerFailed | Interrupted | Io

  datatype Result<+T> = Ok(value: T) | Err(error: Error)

  /** `usize` and `u64` are both 64 bits wide on the supported targets. */
  const U64_MAX: int := 0xFFFF_FFFF_FFFF_FFFF
  const U32_MAX: int := 0xFFFF_FFFF
  const I32_MAX: int := 0x7FFF_FFFF

  type u64 = x: int | 0 <= x <= 0xFFFF_FFFF_FFFF_FFFF

  function Min(a: int, b: int): int { if a < b then a else b }
  function Max(a: int, b: int): int { if a < b then b else a }

  ghost predicate NoDuplicates<T>(s: seq<T>) {
    forall i, j :: 0 <= i < j < |s| ==> s[i] != s[j]
  }

  ghost function Elements<T>(s: seq<T>): (r: set<T>) {
    set x | x in s
  }

  /** A duplicate-free list is exactly as long as its element set is large. */
  lemma {:induction false} DistinctLength<T>(s: seq<T>)
    requires NoDuplicates(s)
    ensures |Elements(s)| == |s|
  {
    if s == [] {
      assert Elements(s) == {};
    } else {
      var last := |s| - 1;
      assert s == s[..last] + [s[last]];
      DistinctLength(s[..last]);
      assert Elements(s) == Elements(s[..last]) + {s[last]};
    }
  }

  /** A duplicate-free list drawn from a set is no longer than the set is large. */
  lemma SubsetLength<T>(s: seq<T>, bound: set<T>)
    requires NoDuplicates(s)
    requires forall x :: x in s ==> x in bound
    ensures |s| <= |bound|
  {
    DistinctLength(s);
    SubsetSize(Elements(s), bound);
  }

  lemma {:induction false} SubsetSize<T>(a: set<T>, b: set<T>)
    requires a <= b
    ensures |a| <= |b|
    ensures a != b ==> |a| < |b|
  {
    assert b == a + (b - a);
    assert |b| == |a| + |b - a|;
  }

  /** The numbers of a half-open interval. */
  ghost function Interval(lo: nat, hi: nat): (r: set<nat>)
    ensures forall k :: k in r <==> lo <= k < hi
    ensures |r| == if lo <= hi then hi - lo else 0
    decreases hi
  {
    if lo >= hi then {} else Interval(lo, hi - 1) + {hi - 1}
  }

  /** A sequence of blocks laid end to end. */
  function Flat<T>(blocks: seq<seq<T>>): (r: seq<T>) {
    if blocks == [] then [] else Flat(blocks[..|blocks| - 1]) + blocks[|blocks| - 1]
  }
}
