/** CInMemoryStream: a read-only cursor over a caller's byte range. */
module InMemory {
  import opened Win

  /** The stream's view: the borrowed bytes (m_data, whose length is
      m_size) and the cursor m_offset. */
  datatype InState = InState(data: seq<bv8>, offset: nat)

  /** m_size fits a UInt64 and the cursor never passes it. */
  predicate ValidState(s: InState)
  {
    |s.data| < TWO_64 && s.offset <= |s.data|
  }

  /** The calls that may move the cursor. */
  datatype Op = ReadOp(size: UInt32) | SeekOp(delta: Int64, origin: UInt32)

  /** How many bytes Read transfers: the whole request, unless fewer remain,
      in which case exactly the remaining ones. */
  function ReadCount(s: InState, size: UInt32): (n: UInt32)
    requires ValidState(s)
    ensures n <= size && s.offset + n <= |s.data|
    ensures n == size || s.offset + n == |s.data|
  {
    if size > |s.data| - s.offset then |s.data| - s.offset else size
  }

  /** The bytes Read copies out: the next ReadCount bytes after the cursor. */
  function ReadBytes(s: InState, size: UInt32): (b: seq<bv8>)
    requires ValidState(s)
    ensures |b| == ReadCount(s, size)
  {
    s.data[s.offset..s.offset + ReadCount(s, size)]
  }

  /** Seek bounds the target by m_size, and END goes to m_size. */
  function SeekResultOf(s: InState, delta: Int64, origin: UInt32): (r: SeekResult)
    requires ValidState(s)
    ensures r.Moved? ==> r.pos <= |s.data|
  {
    SeekOutcome(delta, origin, s.offset, |s.data|, |s.data|)
  }

  /** For any stream shorter than 2^63 bytes: SET goes to the delta, CUR
      moves by it, END goes to m_size; an unknown origin gives
      STG_E_INVALIDFUNCTION, and a target below 0 or above m_size gives
      STG_E_SEEKERROR. */
  lemma SeekExact(s: InState, delta: Int64, origin: UInt32)
    requires ValidState(s) && |s.data| < TWO_63
    ensures origin == STREAM_SEEK_SET ==>
              SeekResultOf(s, delta, origin) == if 0 <= delta <= |s.data| then Moved(delta) else Refused(STG_E_SEEKERROR)
    ensures origin == STREAM_SEEK_CUR ==>
              SeekResultOf(s, delta, origin) ==
                if 0 <= s.offset + delta <= |s.data| then Moved(s.offset + delta) else Refused(STG_E_SEEKERROR)
    ensures origin == STREAM_SEEK_END ==> SeekResultOf(s, delta, origin) == Moved(|s.data|)
    ensures origin > STREAM_SEEK_END ==> SeekResultOf(s, delta, origin) == Refused(STG_E_INVALIDFUNCTION)
  {
    SeekMeansIntended(delta, origin, s.offset, |s.data|, |s.data|);
  }

  /** The state after one call; the bytes never change. */
  function Apply(s: InState, op: Op): (r: InState)
    requires ValidState(s)
    ensures ValidState(r) && r.data == s.data
  {
    match op
    case ReadOp(size) => s.(offset := s.offset + ReadCount(s, size))
    case SeekOp(delta, origin) =>
      match SeekResultOf(s, delta, origin)
      case Moved(p) => s.(offset := p)
      case Refused(_) => s
  }

  /** The state after a sequence of calls, oldest first. Every such state
      keeps m_offset <= m_size. */
  function Run(s: InState, ops: seq<Op>): (r: InState)
    requires ValidState(s)
    ensures ValidState(r) && r.data == s.data
    decreases |ops|
  {
    if ops == [] then s else Apply(Run(s, ops[..|ops| - 1]), ops[|ops| - 1])
  }

  /** Everything the reads in `ops` hand out, in order. */
  function BytesRead(s: InState, ops: seq<Op>): seq<bv8>
    requires ValidState(s)
    decreases |ops|
  {
    if ops == [] then []
    else
      var front := ops[..|ops| - 1];
      var last := ops[|ops| - 1];
      BytesRead(s, front) + if last.ReadOp? then ReadBytes(Run(s, front), last.size) else []
  }

  /** Running a list and then at most one more call is running both. */
  lemma RunAppend(s: InState, ops: seq<Op>, extra: seq<Op>)
    requires ValidState(s) && |extra| <= 1
    ensures Run(s, ops + extra) == Run(Run(s, ops), extra)
  {
    if extra == [] {
      assert ops + extra == ops;
    } else {
      assert (ops + extra)[..|ops|] == ops;
      assert extra[..0] == [];
    }
  }

  /** One more read extends the bytes read so far by the next bytes. */
  lemma ReadExtends(s: InState, t: InState, size: UInt32)
    requires ValidState(s) && ValidState(t) && t.data == s.data && s.offset <= t.offset
    ensures s.data[s.offset..t.offset] + ReadBytes(t, size) == s.data[s.offset..Apply(t, ReadOp(size)).offset]
  {
  }

  /** A run of reads with no seek in between hands out the bytes from the
      starting cursor onwards, contiguously, and moves the cursor by exactly
      the number of bytes handed out; in total never more than remained. */
  lemma {:induction false} SequentialReads(s: InState, ops: seq<Op>)
    requires ValidState(s)
    requires forall i :: 0 <= i < |ops| ==> ops[i].ReadOp?
    ensures Run(s, ops).offset == s.offset + |BytesRead(s, ops)|
    ensures BytesRead(s, ops) == s.data[s.offset..Run(s, ops).offset]
    ensures |BytesRead(s, ops)| <= |s.data| - s.offset
    decreases |ops|
  {
    if ops != [] {
      var k := |ops| - 1;
      var front := ops[..k];
      assert forall i :: 0 <= i < |front| ==> front[i] == ops[i];
      SequentialReads(s, front);
      ReadExtends(s, Run(s, front), ops[k].size);
    }
  }

  class InStream {
    const data: seq<bv8>
    var offset: nat

    function State(): InState
      reads this
    {
      InState(data, offset)
    }

    ghost predicate Valid()
      reads this
    {
      ValidState(State())
    }

    constructor (data: seq<bv8>)
      requires |data| < TWO_64
      ensures Valid() && State() == InState(data, 0)
    {
      this.data := data;
      offset := 0;
    }

    /** Copies up to `size` bytes into `buf` and advances the cursor by the
        number copied; always S_OK. */
    method Read(buf: array<bv8>, size: UInt32) returns (hr: HResult, processedSize: UInt32)
      requires Valid() && size <= buf.Length
      modifies this`offset, buf
      ensures Valid()
      ensures State() == Apply(old(State()), ReadOp(size))
      ensures processedSize == ReadCount(old(State()), size)
      ensures buf[..processedSize] == ReadBytes(old(State()), size)
      ensures buf[processedSize..] == old(buf[processedSize..])
      ensures hr == S_OK
    {
      var n := size;
      if n > |data| - offset {
        n := |data| - offset;
      }
      if n > 0 {
        forall i | 0 <= i < n {
          buf[i] := data[offset + i];
        }
      }
      offset := offset + n;
      processedSize := n;
      hr := S_OK;
    }

    /** ReadPart is Read. */
    method ReadPart(buf: array<bv8>, size: UInt32) returns (hr: HResult, processedSize: UInt32)
      requires Valid() && size <= buf.Length
      modifies this`offset, buf
      ensures Valid()
      ensures State() == Apply(old(State()), ReadOp(size))
      ensures processedSize == ReadCount(old(State()), size)
      ensures buf[..processedSize] == ReadBytes(old(State()), size)
      ensures buf[processedSize..] == old(buf[processedSize..])
      ensures hr == S_OK
    {
      hr, processedSize := Read(buf, size);
    }

    /** Moves the cursor as SeekOutcome allows, bounded by m_size; on success
        the new position is reported (Some), on failure nothing is written
        back (None) and the cursor stays. */
    method Seek(delta: Int64, origin: UInt32) returns (hr: HResult, newPosition: Option<UInt64>)
      requires Valid()
      modifies this`offset
      ensures Valid()
      ensures State() == Apply(old(State()), SeekOp(delta, origin))
      ensures match SeekResultOf(old(State()), delta, origin)
              case Moved(p) => hr == S_OK && newPosition == Some(p) && offset == p
              case Refused(e) => hr == e && newPosition == None && offset == old(offset)
    {
      match SeekOutcome(delta, origin, offset, |data|, |data|)
      case Moved(p) =>
        offset := p;
        hr, newPosition := S_OK, Some(p);
      case Refused(e) =>
        hr, newPosition := e, None;
    }

    method GetSize() returns (hr: HResult, size: UInt64)
      requires Valid()
      ensures hr == S_OK && size == |data|
    {
      hr, size := S_OK, |data|;
    }
  }
}
