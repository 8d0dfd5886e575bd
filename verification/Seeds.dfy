/**
 Reader seed derivation on 64-bit words.

 The SplitMix64 finalizer is a bijection: three xor-shifts and two odd multiplications, each with its
 own inverse, so distinct consumers never share a seed. Masking a Python product to 64 bits is the
 multiplication of 64-bit words.
 */
module Seeds {
  import opened Common

  function Shift30(v: bv64): (r: bv64) { v ^ (v >> 30) }
  function Shift27(v: bv64): (r: bv64) { v ^ (v >> 27) }
  function Shift31(v: bv64): (r: bv64) { v ^ (v >> 31) }
  function TimesFirst(v: bv64): (r: bv64) { v * 0xBF58476D1CE4E5B9 }
  function TimesSecond(v: bv64): (r: bv64) { v * 0x94D049BB133111EB }

  /** `_mix_u64`. */
  function MixU64(value: bv64): (r: bv64) {
    Shift31(TimesSecond(Shift27(TimesFirst(Shift30(value)))))
  }

  /** A word holds two or three groups of the shifted width, so that many xors restore it. */
  function Unshift30(v: bv64): (r: bv64) { v ^ (v >> 30) ^ (v >> 60) }
  function Unshift27(v: bv64): (r: bv64) { v ^ (v >> 27) ^ (v >> 54) }
  function Unshift31(v: bv64): (r: bv64) { v ^ (v >> 31) ^ (v >> 62) }

  /** Inverses of the two odd multipliers modulo 2^64. */
  function DivideFirst(v: bv64): (r: bv64) { v * 0x96DE1B173F119089 }
  function DivideSecond(v: bv64): (r: bv64) { v * 0x319642B2D24D8EC3 }

  function UnmixU64(value: bv64): (r: bv64) {
    Unshift30(DivideFirst(Unshift27(DivideSecond(Unshift31(value)))))
  }

  lemma XorShift30(v: bv64)
    ensures Unshift30(v ^ (v >> 30)) == v
  {
  }

  lemma Shift30Undone(v: bv64)
    ensures Unshift30(Shift30(v)) == v
  {
    XorShift30(v);
  }

  lemma XorShift27(v: bv64)
    ensures Unshift27(v ^ (v >> 27)) == v
  {
  }

  lemma Shift27Undone(v: bv64)
    ensures Unshift27(Shift27(v)) == v
  {
    XorShift27(v);
  }

  lemma XorShift31(v: bv64)
    ensures Unshift31(v ^ (v >> 31)) == v
  {
  }

  lemma Shift31Undone(v: bv64)
    ensures Unshift31(Shift31(v)) == v
  {
    XorShift31(v);
  }

  lemma FirstProduct(v: bv64)
    ensures DivideFirst(v * 0xBF58476D1CE4E5B9) == v
  {
  }

  lemma TimesFirstUndone(v: bv64)
    ensures DivideFirst(TimesFirst(v)) == v
  {
    FirstProduct(v);
  }

  lemma SecondProduct(v: bv64)
    ensures DivideSecond(v * 0x94D049BB133111EB) == v
  {
  }

  lemma TimesSecondUndone(v: bv64)
    ensures DivideSecond(TimesSecond(v)) == v
  {
    SecondProduct(v);
  }

  /** The finalizer loses nothing: it can be undone on every word. */
  lemma MixRoundTrip(value: bv64)
    ensures UnmixU64(MixU64(value)) == value
  {
    var a := Shift30(value);
    var b := TimesFirst(a);
    var c := Shift27(b);
    var d := TimesSecond(c);
    Shift31Undone(d);
    TimesSecondUndone(c);
    Shift27Undone(b);
    TimesFirstUndone(a);
    Shift30Undone(value);
  }

  /** Consumers are identified by a 32-bit rank and a 32-bit worker packed into one word. */
  function Slot(rank: bv64, worker: bv64): (r: bv64) { (rank << 32) | worker }

  function Xor(a: bv64, b: bv64): (r: bv64) { a ^ b }

  /** `derive_seed`; ids that do not fit 32 bits are refused. */
  function DeriveSeed(base: bv64, rank: bv64, worker: bv64): (r: Result<bv64>) {
    if rank >= 0x1_0000_0000 || worker >= 0x1_0000_0000 then Err(InvalidInput)
    else Ok(MixU64(Xor(Slot(rank, worker), MixU64(Xor(base, 0x4453545253454544)))))
  }

  lemma SlotInjective(rank: bv64, worker: bv64, rank': bv64, worker': bv64)
    requires rank < 0x1_0000_0000 && worker < 0x1_0000_0000
    requires rank' < 0x1_0000_0000 && worker' < 0x1_0000_0000
    requires Slot(rank, worker) == Slot(rank', worker')
    ensures rank == rank' && worker == worker'
  {
  }

  lemma XorCancels(a: bv64, b: bv64, key: bv64)
    requires Xor(a, key) == Xor(b, key) || Xor(key, a) == Xor(key, b)
    ensures a == b
  {
  }

  lemma MixInjective(a: bv64, b: bv64)
    requires MixU64(a) == MixU64(b)
    ensures a == b
  {
    MixRoundTrip(a);
    MixRoundTrip(b);
  }

  /** For any base seed, two consumers share a seed exactly when they are the same consumer. */
  lemma DeriveSeedInjective(base: bv64, rank: bv64, worker: bv64, rank': bv64, worker': bv64)
    requires DeriveSeed(base, rank, worker).Ok? && DeriveSeed(base, rank', worker').Ok?
    ensures DeriveSeed(base, rank, worker) == DeriveSeed(base, rank', worker') <==>
            rank == rank' && worker == worker'
  {
    var key := MixU64(Xor(base, 0x4453545253454544));
    if DeriveSeed(base, rank, worker) == DeriveSeed(base, rank', worker') {
      MixInjective(Xor(Slot(rank, worker), key), Xor(Slot(rank', worker'), key));
      XorCancels(Slot(rank, worker), Slot(rank', worker'), key);
      SlotInjective(rank, worker, rank', worker');
    }
  }

  /** For a fixed consumer, distinct base seeds also give distinct seeds. */
  lemma DeriveSeedInjectiveInBase(base: bv64, base': bv64, rank: bv64, worker: bv64)
    requires DeriveSeed(base, rank, worker).Ok?
    requires DeriveSeed(base, rank, worker) == DeriveSeed(base', rank, worker)
    ensures base == base'
  {
    var key, key' := Xor(base, 0x4453545253454544), Xor(base', 0x4453545253454544);
    MixInjective(Xor(Slot(rank, worker), MixU64(key)), Xor(Slot(rank, worker), MixU64(key')));
    XorCancels(MixU64(key), MixU64(key'), Slot(rank, worker));
    MixInjective(key, key');
    XorCancels(base, base', 0x4453545253454544);
  }

  /** The frozen vectors of seed derivation version 1. */
  lemma SeedVectors()
    ensures DeriveSeed(7, 0, 0) == Ok(4009395924408594412)
    ensures DeriveSeed(7, 0, 1) == Ok(14809830920954445264)
    ensures DeriveSeed(7, 1, 0) == Ok(6356427855144527917)
    ensures DeriveSeed(7, 1, 1) == Ok(2535241347958328860)
  {
  }

  /** Ids that do not fit 32 bits are refused, and no others. */
  lemma SeedRefusals(base: bv64, rank: bv64, worker: bv64)
    ensures DeriveSeed(base, rank, worker).Ok? <==> rank <= 0xFFFF_FFFF && worker <= 0xFFFF_FFFF
  {
  }
}
