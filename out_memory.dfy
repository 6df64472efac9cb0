/** COutMemoryStream: a write cursor over a caller buffer of fixed capacity
    m_maxsize, with a high-water mark m_size. */
module OutMemory {
  import opened Win

  /** The stream's view: the m_maxsize bytes of the destination, the
      high-water mark m_size and the cursor m_offset. */
  datatype OutState = OutState(buf: seq<bv8>, size: nat, offset: nat)

  predicate ValidState(s: OutState)
  {
    |s.buf| < TWO_64 && s.size <= |s.buf| && s.offset <= |s.buf|
  }

  /** A fresh stream over `buf`: nothing written, cursor at 0. */
  function Initial(buf: seq<bv8>): (s: OutState)
    requires |buf| < TWO_64
    ensures ValidState(s) && s.buf == buf
    ensures s.size == 0 && s.offset == 0
  {
    OutState(buf, 0, 0)
  }

  /** The calls that may change the stream. */
  datatype Op = WriteOp(bytes: Chunk) | SeekOp(delta: Int64, origin: UInt32) | SetSizeOp(newSize: Int64)

  /** How many bytes Write stores: the whole request, unless the capacity
      ends first, in which case exactly up to the capacity. */
  function WriteCount(s: OutState, size: UInt32): (n: UInt32)
    requires ValidState(s)
    ensures n <= size && s.offset + n <= |s.buf|
    ensures n == size || s.offset + n == |s.buf|
  {
    if size > |s.buf| - s.offset then |s.buf| - s.offset else size
  }

  /** The state after Write(bytes): the stored bytes sit at the old cursor,
      nothing else in the buffer changes, the cursor moves past them and the
      high-water mark is raised to the cursor if it was below it. */
  function Written(s: OutState, bytes: Chunk): (r: OutState)
    requires ValidState(s)
    ensures ValidState(r) && |r.buf| == |s.buf|
    ensures r.offset == s.offset + WriteCount(s, |bytes|)
    ensures r.buf[s.offset..r.offset] == bytes[..r.offset - s.offset]
    ensures r.buf[..s.offset] == s.buf[..s.offset]
    ensures r.buf[r.offset..] == s.buf[r.offset..]
    ensures r.size == if r.offset > s.size then r.offset else s.size
  {
    var n := WriteCount(s, |bytes|);
    var buf := s.buf[..s.offset] + bytes[..n] + s.buf[s.offset + n..];
    assert buf[s.offset..s.offset + n] == bytes[..n];
    assert buf[s.offset + n..] == s.buf[s.offset + n..];
    OutState(buf, if s.offset + n > s.size then s.offset + n else s.size, s.offset + n)
  }

  /** Seek bounds the target by m_maxsize, but END goes to m_size. */
  function SeekResultOf(s: OutState, delta: Int64, origin: UInt32): (r: SeekResult)
    requires ValidState(s)
    ensures r.Moved? ==> r.pos <= |s.buf|
    ensures origin == STREAM_SEEK_END ==> r == Moved(s.size)
  {
    SeekOutcome(delta, origin, s.offset, s.size, |s.buf|)
  }

  /** For any capacity below 2^63: SET goes to the delta, CUR moves by it,
      both bounded by m_maxsize; END always succeeds, at m_size; an unknown
      origin gives STG_E_INVALIDFUNCTION. */
  lemma SeekExact(s: OutState, delta: Int64, origin: UInt32)
    requires ValidState(s) && |s.buf| < TWO_63
    ensures origin == STREAM_SEEK_SET ==>
              SeekResultOf(s, delta, origin) == if 0 <= delta <= |s.buf| then Moved(delta) else Refused(STG_E_SEEKERROR)
    ensures origin == STREAM_SEEK_CUR ==>
              SeekResultOf(s, delta, origin) ==
                if 0 <= s.offset + delta <= |s.buf| then Moved(s.offset + delta) else Refused(STG_E_SEEKERROR)
    ensures origin > STREAM_SEEK_END ==> SeekResultOf(s, delta, origin) == Refused(STG_E_INVALIDFUNCTION)
  {
    SeekMeansIntended(delta, origin, s.offset, s.size, |s.buf|);
  }

  /** SetSize only checks the request, converted to UInt64, against the
      capacity. */
  function SetSizeResult(s: OutState, newSize: Int64): (hr: HResult)
    requires ValidState(s)
    ensures hr == S_OK || hr == STG_E_MEDIUMFULL
    ensures hr == S_OK <==> ToUInt64(newSize) <= |s.buf|
    ensures |s.buf| < TWO_63 ==> (hr == S_OK <==> 0 <= newSize <= |s.buf|)
  {
    if ToUInt64(newSize) > |s.buf| then STG_E_MEDIUMFULL else S_OK
  }

  function Apply(s: OutState, op: Op): (r: OutState)
    requires ValidState(s)
    ensures ValidState(r) && |r.buf| == |s.buf|
  {
    match op
    case WriteOp(bytes) => Written(s, bytes)
    case SeekOp(delta, origin) =>
      (match SeekResultOf(s, delta, origin)
       case Moved(p) => s.(offset := p)
       case Refused(_) => s)
    case SetSizeOp(_) => s
  }

  /** The state after a sequence of calls, oldest first; each keeps
      m_size <= m_maxsize and m_offset <= m_maxsize. */
  function Run(s: OutState, ops: seq<Op>): (r: OutState)
    requires ValidState(s)
    ensures ValidState(r) && |r.buf| == |s.buf|
    decreases |ops|
  {
    if ops == [] then s else Apply(Run(s, ops[..|ops| - 1]), ops[|ops| - 1])
  }

  /** Running a list and then at most one more call is running both. */
  lemma RunAppend(s: OutState, ops: seq<Op>, extra: seq<Op>)
    requires ValidState(s) && |extra| <= 1
    ensures Run(s, ops + extra) == Run(Run(s, ops), extra)
  {
    if extra == [] {
      assert ops + extra == ops;
    } else {
      assert (ops + extra)[..|ops|] == ops;
      assert extra[..0] == [];
    }
  }

  /** One call never lowers m_size; a write leaves the cursor at or below
      it, and only a write that moves the cursor past it raises it, to that
      cursor. */
  lemma ApplyHighWater(t: OutState, op: Op)
    requires ValidState(t)
    ensures Apply(t, op).size >= t.size
    ensures op.WriteOp? ==> Apply(t, op).offset <= Apply(t, op).size
    ensures Apply(t, op).size != t.size ==> op.WriteOp? && Apply(t, op).offset == Apply(t, op).size
  {
  }

  /** The state right after the i-th call of `ops`. */
  function After(s: OutState, ops: seq<Op>, i: nat): (r: OutState)
    requires ValidState(s) && i < |ops|
    ensures ValidState(r)
  {
    Run(s, ops[..i + 1])
  }

  lemma AfterPrefix(s: OutState, ops: seq<Op>, k: nat, i: nat)
    requires ValidState(s) && i < k <= |ops|
    ensures After(s, ops[..k], i) == After(s, ops, i)
  {
    assert ops[..k][..i + 1] == ops[..i + 1];
  }

  /** m_size never drops, and every write leaves the cursor at or below the
      final m_size. */
  lemma {:induction false} HighWaterBound(s: OutState, ops: seq<Op>)
    requires ValidState(s)
    ensures Run(s, ops).size >= s.size
    ensures forall i :: 0 <= i < |ops| && ops[i].WriteOp? ==> After(s, ops, i).offset <= Run(s, ops).size
    decreases |ops|
  {
    if ops != [] {
      var k := |ops| - 1;
      var front := ops[..k];
      HighWaterBound(s, front);
      var t := Run(s, front);
      var r := Run(s, ops);
      ApplyHighWater(t, ops[k]);
      forall i | 0 <= i < |ops| && ops[i].WriteOp?
        ensures After(s, ops, i).offset <= r.size
      {
        if i < k {
          AfterPrefix(s, ops, k, i);
          assert front[i].WriteOp?;
        } else {
          assert ops[..i + 1] == ops;
        }
      }
    }
  }

  /** The final m_size is either the initial one or the cursor right after
      some write: m_size is exactly the high-water mark of the writes. */
  lemma {:induction false} HighWaterAttained(s: OutState, ops: seq<Op>)
    requires ValidState(s)
    ensures Run(s, ops).size == s.size ||
            exists i :: 0 <= i < |ops| && ops[i].WriteOp? && After(s, ops, i).offset == Run(s, ops).size
    decreases |ops|
  {
    if ops != [] {
      var k := |ops| - 1;
      var front := ops[..k];
      HighWaterAttained(s, front);
      var t := Run(s, front);
      var r := Run(s, ops);
      ApplyHighWater(t, ops[k]);
      if r.size != s.size {
        if r.size == t.size {
          var i :| 0 <= i < |front| && front[i].WriteOp? && After(s, front, i).offset == t.size;
          AfterPrefix(s, ops, k, i);
          assert ops[i].WriteOp?;
        } else {
          assert ops[..k + 1] == ops;
          assert After(s, ops, k) == r;
        }
      }
    }
  }

  /** An array whose first m elements agree with `bytes` on [o, o + n)
      and with `before` elsewhere holds the splice Written builds. */
  lemma Splice(a: array<bv8>, m: nat, before: seq<bv8>, o: nat, n: nat, bytes: seq<bv8>)
    requires m <= a.Length && |before| == m && o + n <= m && n <= |bytes|
    requires forall j :: 0 <= j < m && (j < o || o + n <= j) ==> a[j] == before[j]
    requires forall j :: o <= j < o + n ==> a[j] == bytes[j - o]
    ensures a[..m] == before[..o] + bytes[..n] + before[o + n..]
  {
  }

  class OutStream {
    const data: array<bv8>
    const maxsize: UInt64
    var size: nat
    var offset: nat

    ghost predicate Valid()
      reads this
    {
      maxsize <= data.Length && size <= maxsize && offset <= maxsize
    }

    function State(): OutState
      reads this, data
      requires maxsize <= data.Length
    {
      OutState(data[..maxsize], size, offset)
    }

    constructor (data: array<bv8>, maxsize: UInt64)
      requires maxsize <= data.Length
      ensures Valid() && this.data == data && this.maxsize == maxsize
      ensures State() == Initial(data[..maxsize])
    {
      this.data := data;
      this.maxsize := maxsize;
      size := 0;
      offset := 0;
    }

    /** Stores as much of `bytes` as fits at the cursor; bytes beyond
        m_maxsize are never touched; always S_OK. */
    method Write(bytes: Chunk) returns (hr: HResult, processedSize: UInt32)
      requires Valid()
      modifies this`size, this`offset, data
      ensures Valid()
      ensures State() == Written(old(State()), bytes)
      ensures processedSize == WriteCount(old(State()), |bytes|)
      ensures data[maxsize..] == old(data[maxsize..])
      ensures hr == S_OK
    {
      ghost var s0 := State();
      var n: UInt32 := |bytes|;
      if n > maxsize - offset {
        n := maxsize - offset;
      }
      assert n == WriteCount(s0, |bytes|);
      if n > 0 {
        forall i | 0 <= i < n {
          data[offset + i] := bytes[i];
        }
      }
      Splice(data, maxsize, s0.buf, offset, n, bytes);
      assert data[..maxsize] == Written(s0, bytes).buf;
      offset := offset + n;
      if offset > size {
        size := offset;
      }
      processedSize := n;
      hr := S_OK;
    }

    /** WritePart is Write. */
    method WritePart(bytes: Chunk) returns (hr: HResult, processedSize: UInt32)
      requires Valid()
      modifies this`size, this`offset, data
      ensures Valid()
      ensures State() == Written(old(State()), bytes)
      ensures processedSize == WriteCount(old(State()), |bytes|)
      ensures data[maxsize..] == old(data[maxsize..])
      ensures hr == S_OK
    {
      hr, processedSize := Write(bytes);
    }

    /** Moves the cursor as SeekOutcome allows, bounded by m_maxsize, with END
        at m_size; reports the new position only on success. */
    method Seek(delta: Int64, origin: UInt32) returns (hr: HResult, newPosition: Option<UInt64>)
      requires Valid()
      modifies this`offset
      ensures Valid()
      ensures State() == Apply(old(State()), SeekOp(delta, origin))
      ensures match SeekResultOf(old(State()), delta, origin)
              case Moved(p) => hr == S_OK && newPosition == Some(p) && offset == p
              case Refused(e) => hr == e && newPosition == None && offset == old(offset)
    {
      match SeekOutcome(delta, origin, offset, size, maxsize)
      case Moved(p) =>
        offset := p;
        hr, newPosition := S_OK, Some(p);
      case Refused(e) =>
        hr, newPosition := e, None;
    }

    /** Validates a requested size against the capacity and changes nothing. */
    method SetSize(newSize: Int64) returns (hr: HResult)
      requires Valid()
      ensures hr == SetSizeResult(State(), newSize)
      ensures hr == S_OK <==> ToUInt64(newSize) <= maxsize
    {
      if ToUInt64(newSize) > maxsize {
        return STG_E_MEDIUMFULL;
      }
      return S_OK;
    }
  }
}
