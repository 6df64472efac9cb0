/** Integer widths, COM result codes and the seek arithmetic that the two
    memory streams of the LZMA zlib wrapper share. */
module Win {

  const TWO_31: int := 0x8000_0000
  const TWO_32: int := 0x1_0000_0000
  const TWO_63: int := 0x8000_0000_0000_0000
  const TWO_64: int := 0x1_0000_0000_0000_0000

  type UInt32 = x: int | 0 <= x < TWO_32
  type UInt64 = x: int | 0 <= x < TWO_64
  type Int32 = x: int | -TWO_31 <= x < TWO_31
  type Int64 = x: int | -TWO_63 <= x < TWO_63

  /** A caller buffer handed to Write: its length is the UInt32 `size`. */
  type Chunk = s: seq<bv8> | |s| < TWO_32

  datatype Option<+T> = None | Some(value: T)

  /** The HRESULT values the wrapper produces or inspects; any other
      failure an engine may report is `OtherFailure`. */
  datatype HResult =
    | S_OK
    | E_OUTOFMEMORY
    | STG_E_INVALIDFUNCTION
    | STG_E_SEEKERROR
    | STG_E_MEDIUMFULL
    | OtherFailure(code: int)

  const STREAM_SEEK_SET: UInt32 := 0
  const STREAM_SEEK_CUR: UInt32 := 1
  const STREAM_SEEK_END: UInt32 := 2

  /** Conversion of an integer to UInt64, wrapping modulo 2^64. */
  function ToUInt64(x: int): (r: UInt64)
    ensures 0 <= x < TWO_64 ==> r == x
    ensures -TWO_64 <= x < 0 ==> r == x + TWO_64
    ensures TWO_64 <= x < 2 * TWO_64 ==> r == x - TWO_64
  {
    x % TWO_64
  }

  /** Outcome of a stream Seek: the new cursor, or the refusal code. */
  datatype SeekResult = Moved(pos: UInt64) | Refused(hr: HResult)

  /** The target a Seek computes into its UInt64 local: SET takes the
      delta, CUR adds it to the cursor (both wrap), END takes `end` and
      ignores the delta; None for an origin the streams do not know. */
  function RawTarget(delta: Int64, origin: UInt32, cur: UInt64, end: UInt64): Option<UInt64>
  {
    if origin == STREAM_SEEK_SET then Some(ToUInt64(delta))
    else if origin == STREAM_SEEK_CUR then Some(ToUInt64(cur + delta))
    else if origin == STREAM_SEEK_END then Some(end)
    else None
  }

  /** Seek as both stream classes write it: refuse an unknown origin, then
      refuse a target above `bound`. The source's test `_offset < 0` is on
      an unsigned value and never holds: a negative target has wrapped to a
      huge one and is caught by the bound instead. */
  function SeekOutcome(delta: Int64, origin: UInt32, cur: UInt64, end: UInt64, bound: UInt64): (r: SeekResult)
    ensures r.Moved? ==> r.pos <= bound
    ensures r.Refused? ==> r.hr == STG_E_INVALIDFUNCTION || r.hr == STG_E_SEEKERROR
    ensures r == Refused(STG_E_INVALIDFUNCTION) <==> origin > STREAM_SEEK_END
    ensures origin == STREAM_SEEK_END ==>
              r == if end <= bound then Moved(end) else Refused(STG_E_SEEKERROR)
  {
    match RawTarget(delta, origin, cur, end)
    case None => Refused(STG_E_INVALIDFUNCTION)
    case Some(t) => if t > bound then Refused(STG_E_SEEKERROR) else Moved(t)
  }

  /** The position a seek asks for, in exact integers. */
  function IntendedTarget(delta: int, origin: UInt32, cur: int, end: int): Option<int>
  {
    if origin == STREAM_SEEK_SET then Some(delta)
    else if origin == STREAM_SEEK_CUR then Some(cur + delta)
    else if origin == STREAM_SEEK_END then Some(end)
    else None
  }

  /** Whenever the bound fits in an Int64 and the cursor is within it, the
      wrapped UInt64 arithmetic of SeekOutcome behaves as the exact check
      "0 <= target <= bound" would. */
  lemma SeekMeansIntended(delta: Int64, origin: UInt32, cur: UInt64, end: UInt64, bound: UInt64)
    requires bound < TWO_63 && cur <= bound
    ensures SeekOutcome(delta, origin, cur, end, bound) ==
              match IntendedTarget(delta, origin, cur, end)
              case None => Refused(STG_E_INVALIDFUNCTION)
              case Some(t) => if 0 <= t <= bound then Moved(t) else Refused(STG_E_SEEKERROR)
  {
    if origin == STREAM_SEEK_SET {
      if delta < 0 {
        assert ToUInt64(delta) == delta + TWO_64;
      }
    } else if origin == STREAM_SEEK_CUR {
      if cur + delta < 0 {
        assert ToUInt64(cur + delta) == cur + delta + TWO_64;
      }
    }
  }
}
