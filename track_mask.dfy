/** The active-track mask: a 32-bit Int, seen as the set of positions
    (0 to 31) of its one bits. `or` is union, `and ... inv()` is difference
    and `== 0` is emptiness. */
module TrackMask {

  type Mask = set<int>

  /** The one bit of `1 shl i` on a Kotlin Int: the shift distance is taken
      modulo 32, so track 32 aliases track 0 and the index -2 names bit 30. */
  function Bit(i: int): (k: int)
    ensures 0 <= k < 32
    ensures 0 <= i < 32 ==> k == i
  {
    i % 32
  }

  /** `m or (1 shl i)` */
  function With(m: Mask, i: int): Mask
  {
    m + {Bit(i)}
  }

  /** `m and (1 shl i).inv()` */
  function Without(m: Mask, i: int): Mask
  {
    m - {Bit(i)}
  }

  /** `m and (1 shl i) != 0`: whether track i's bit is set. */
  predicate Has(m: Mask, i: int)
  {
    Bit(i) in m
  }

  /** Setting track i's bit sets track j's too exactly when the indices agree
      modulo 32; otherwise track j's bit is as it was. */
  lemma WithHas(m: Mask, i: int, j: int)
    ensures Has(With(m, i), j) <==> Has(m, j) || i % 32 == j % 32
  {
  }

  /** Clearing track i clears its bit and leaves the bit of every track
      whose index differs from i modulo 32 as it was. */
  lemma WithoutKeepsOthers(m: Mask, i: int, j: int)
    ensures !Has(Without(m, i), i)
    ensures i % 32 != j % 32 ==> (Has(Without(m, i), j) <==> Has(m, j))
  {
  }

  /** Tracks whose indices differ by 32 share a bit: when either is cleared,
      the other reads as cleared too. */
  lemma AliasedTracksClearTogether(m: Mask, i: int)
    ensures !Has(Without(m, i + 32), i) && !Has(Without(m, i), i + 32)
  {
  }
}
