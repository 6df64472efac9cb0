/** The zlib-style entry points of the wrapper: compress2 and the two
    decoders lzmawrt_uncompress (DD-WRT SquashFS blocks) and
    lzmaspec_uncompress (explicit parameters, for brute-force scanning).
    Each is specified by a pure Outcome function that holds for every
    engine, and implemented by a method over the two stream classes. */
module ZLib {
  import opened Win
  import opened Engine
  import InMemory
  import OutMemory

  /** zlib's status codes (0, -4, -5 and -3 in zlib.h). */
  datatype ZStatus = Z_OK | Z_MEM_ERROR | Z_BUF_ERROR | Z_DATA_ERROR

  /** compress2's literal-context, literal-position and position bits. */
  const ZLIB_LC: int := 3
  const ZLIB_LP: int := 0
  const ZLIB_PB: int := 2

  /** The decoders' dictionary size, 1 << 23 (8 MiB). */
  const DEFAULT_DICTIONARY_SIZE: int := 0x80_0000

  /** DD-WRT blocks start with four header bytes: pb, lc, lp, unused. */
  const WRT_HEADER_SIZE: nat := 4

  /** `1 << (level + 14)` is a well-defined positive C int exactly for these. */
  const MIN_LEVEL: int := -14
  const MAX_LEVEL: int := 16

  function Pow2(n: nat): (r: nat)
    ensures r >= 1
  {
    if n == 0 then 1 else 2 * Pow2(n - 1)
  }

  lemma {:induction false} Pow2Grows(a: nat, b: nat)
    requires a < b
    ensures Pow2(a) < Pow2(b)
    decreases b
  {
    if a + 1 < b {
      Pow2Grows(a, b - 1);
    }
  }

  /** The single encoder profile compress2 configures: the dictionary is
      1 << (level + 14), the rest is fixed. */
  function CompressProfile(level: int): (p: EncoderProfile)
    requires MIN_LEVEL <= level <= MAX_LEVEL
    ensures p.dictionarySize >= 1
  {
    EncoderProfile(
      dictionarySize := Pow2(level + 14),
      posStateBits := ZLIB_PB,
      litContextBits := ZLIB_LC,
      litPosBits := ZLIB_LP,
      algorithm := 2,
      numFastBytes := 128,
      matchFinder := "BT4",
      endMarker := true)
  }

  /** A higher level always asks for a strictly larger dictionary, and
      levels differ in nothing else. */
  lemma CompressDictionaryGrows(a: int, b: int)
    requires MIN_LEVEL <= a < b <= MAX_LEVEL
    ensures CompressProfile(a).dictionarySize < CompressProfile(b).dictionarySize
    ensures CompressProfile(a).(dictionarySize := 0) == CompressProfile(b).(dictionarySize := 0)
  {
    Pow2Grows(a + 14, b + 14);
  }

  /** Level 1 gives a 32 KiB dictionary, level 9 the decoders' 8 MiB one;
      every level's dictionary fits a UInt32. */
  lemma CompressDictionarySizes(level: int)
    requires MIN_LEVEL <= level <= MAX_LEVEL
    ensures CompressProfile(1).dictionarySize == 0x8000
    ensures CompressProfile(9).dictionarySize == DEFAULT_DICTIONARY_SIZE
    ensures CompressProfile(level).dictionarySize <= 0x4000_0000 < TWO_32
  {
    assert Pow2(15) == 0x8000;
    assert Pow2(23) == 0x80_0000;
    assert Pow2(30) == 0x4000_0000;
    if level < MAX_LEVEL {
      Pow2Grows(level + 14, 30);
    }
  }

  /** What an entry point leaves behind: its status, *destLen on return, and
      the first (on-entry) *destLen bytes of dest. */
  datatype Outcome = Outcome(status: ZStatus, destLen: UInt64, contents: seq<bv8>)

  /** compress2, for any engine. A configuration refusal and an engine
      E_OUTOFMEMORY give Z_MEM_ERROR, any other engine failure Z_BUF_ERROR;
      *destLen changes only on Z_OK, to the output's high-water mark. */
  function CompressOutcome(coder: Coder, dest: seq<bv8>, source: seq<bv8>, level: int): (r: Outcome)
    requires |dest| < TWO_64 && MIN_LEVEL <= level <= MAX_LEVEL
    ensures var accepted := coder.acceptsEncoder(CompressProfile(level));
            var plan := coder.plan(Request(EncodeWith(CompressProfile(level)), source, None));
            && (r.status == Z_OK <==> accepted && plan.result == S_OK)
            && (r.status == Z_MEM_ERROR <==> !accepted || plan.result == E_OUTOFMEMORY)
            && (r.status == Z_BUF_ERROR <==> accepted && plan.result != S_OK && plan.result != E_OUTOFMEMORY)
            && (r.status == Z_OK ==> r.destLen == FinalOut(plan, dest).size)
            && (!accepted ==> r.contents == dest)
            && (accepted ==> r.contents == FinalOut(plan, dest).buf)
    ensures r.status != Z_DATA_ERROR
    ensures |r.contents| == |dest| && r.destLen <= |dest|
    ensures r.status != Z_OK ==> r.destLen == |dest|
  {
    var profile := CompressProfile(level);
    if !coder.acceptsEncoder(profile) then Outcome(Z_MEM_ERROR, |dest|, dest)
    else
      var plan := coder.plan(Request(EncodeWith(profile), source, None));
      var out := FinalOut(plan, dest);
      if plan.result == E_OUTOFMEMORY then Outcome(Z_MEM_ERROR, |dest|, out.buf)
      else if plan.result != S_OK then Outcome(Z_BUF_ERROR, |dest|, out.buf)
      else Outcome(Z_OK, out.size, out.buf)
  }

  /** The decode tail both decoders share: configure the raw properties,
      decode `payload` expecting *destLen bytes; any failure is
      Z_DATA_ERROR, success reports the output's high-water mark. */
  function DecodeOutcome(coder: Coder, dest: seq<bv8>, payload: seq<bv8>, props: DecoderProps): (r: Outcome)
    requires |dest| < TWO_64
    ensures var plan := coder.plan(Request(DecodeWith(props), payload, Some(|dest|)));
            && (r.status == Z_OK <==> coder.acceptsDecoder(props) && plan.result == S_OK)
            && (r.status == Z_OK ==> r.destLen == FinalOut(plan, dest).size)
            && (!coder.acceptsDecoder(props) ==> r.contents == dest)
            && (coder.acceptsDecoder(props) ==> r.contents == FinalOut(plan, dest).buf)
    ensures r.status == Z_OK || r.status == Z_DATA_ERROR
    ensures |r.contents| == |dest| && r.destLen <= |dest|
    ensures r.status != Z_OK ==> r.destLen == |dest|
  {
    if !coder.acceptsDecoder(props) then Outcome(Z_DATA_ERROR, |dest|, dest)
    else
      var plan := coder.plan(Request(DecodeWith(props), payload, Some(|dest|)));
      var out := FinalOut(plan, dest);
      if plan.result != S_OK then Outcome(Z_DATA_ERROR, |dest|, out.buf)
      else Outcome(Z_OK, out.size, out.buf)
  }

  /** lc, lp and pb each at most 4, lc + lp at most 4: the bounds the
      DD-WRT header check enforces. */
  predicate WrtBounds(lc: int, lp: int, pb: int)
  {
    0 <= lc && 0 <= lp && 0 <= pb && pb <= 4 && lc + lp <= 4
  }

  /** The parameters of a DD-WRT block header: pb in byte 0, lc in byte 1,
      lp in byte 2 (byte 3 is not read), with the 8 MiB dictionary; None
      when the sanity check rejects them. */
  function WrtProps(source: seq<bv8>): (r: Option<DecoderProps>)
    requires |source| >= WRT_HEADER_SIZE
    ensures r.Some? <==> WrtBounds(source[1] as int, source[2] as int, source[0] as int)
    ensures r.Some? ==> r.value == DecoderProps(source[1] as int, source[2] as int, source[0] as int, DEFAULT_DICTIONARY_SIZE)
  {
    var lc, lp, pb := source[1] as int, source[2] as int, source[0] as int;
    if lc > 4 || lp > 4 || pb > 4 || lc + lp > 4 then None
    else Some(DecoderProps(lc, lp, pb, DEFAULT_DICTIONARY_SIZE))
  }

  /** The DD-WRT header that carries `p`, with `reserved` as its unused
      fourth byte. */
  function WrtHeader(p: DecoderProps, reserved: bv8): (h: seq<bv8>)
    requires 0 <= p.lc < 256 && 0 <= p.lp < 256 && 0 <= p.pb < 256
    ensures |h| == WRT_HEADER_SIZE
  {
    [p.pb as bv8, p.lc as bv8, p.lp as bv8, reserved]
  }

  /** Every parameter set within the bounds survives being written into a
      header and read back, whatever follows the header. */
  lemma WrtHeaderRoundTrip(p: DecoderProps, reserved: bv8, payload: seq<bv8>)
    requires WrtBounds(p.lc, p.lp, p.pb) && p.dictionarySize == DEFAULT_DICTIONARY_SIZE
    ensures WrtProps(WrtHeader(p, reserved) + payload) == Some(p)
  {
    var s := WrtHeader(p, reserved) + payload;
    assert s[0] as int == p.pb && s[1] as int == p.lc && s[2] as int == p.lp;
  }

  /** Conversely, every header the check accepts is the header of what it
      yields. */
  lemma WrtPropsAreHeader(source: seq<bv8>)
    requires |source| >= WRT_HEADER_SIZE && WrtProps(source).Some?
    ensures WrtHeader(WrtProps(source).value, source[3]) == source[..WRT_HEADER_SIZE]
  {
    var p := WrtProps(source).value;
    assert p.pb as bv8 == source[0] && p.lc as bv8 == source[1] && p.lp as bv8 == source[2];
  }

  /** lzmawrt_uncompress, for any engine: a header failing the check gives
      Z_DATA_ERROR with dest and *destLen untouched and the engine never
      consulted; otherwise source[4..] is decoded with the header's
      parameters. */
  function WrtOutcome(coder: Coder, dest: seq<bv8>, source: seq<bv8>): (r: Outcome)
    requires |dest| < TWO_64 && |source| >= WRT_HEADER_SIZE
    ensures WrtProps(source).None? ==> r == Outcome(Z_DATA_ERROR, |dest|, dest)
    ensures WrtProps(source).Some? ==> r == DecodeOutcome(coder, dest, source[WRT_HEADER_SIZE..], WrtProps(source).value)
    ensures r.status == Z_OK ==> WrtBounds(source[1] as int, source[2] as int, source[0] as int)
    ensures r.status == Z_OK || r.status == Z_DATA_ERROR
  {
    match WrtProps(source)
    case None => Outcome(Z_DATA_ERROR, |dest|, dest)
    case Some(props) => DecodeOutcome(coder, dest, source[WRT_HEADER_SIZE..], props)
  }

  /** A dictionary size of 0 or less stands for the 8 MiB default. */
  function DictionaryOrDefault(dictionarySize: Int32): (d: int)
    ensures d >= 1
    ensures dictionarySize > 0 ==> d == dictionarySize
    ensures dictionarySize <= 0 ==> d == DEFAULT_DICTIONARY_SIZE
  {
    if dictionarySize <= 0 then DEFAULT_DICTIONARY_SIZE else dictionarySize
  }

  /** lzmaspec_uncompress, for any engine: source[offset..] is decoded with
      lc, lp and pb exactly as given (no range check) and the defaulted
      dictionary size. What that means for the status, *destLen and dest is
      stated by DecodeOutcome's contract, and what the dictionary becomes by
      DictionaryOrDefault's. */
  function SpecOutcome(coder: Coder, dest: seq<bv8>, source: seq<bv8>,
                       lc: Int32, lp: Int32, pb: Int32, dictionarySize: Int32, offset: Int32): (r: Outcome)
    requires |dest| < TWO_64 && 0 <= offset <= |source|
    ensures r == DecodeOutcome(coder, dest, source[offset..], DecoderProps(lc, lp, pb, DictionaryOrDefault(dictionarySize)))
    ensures r.status == Z_OK || r.status == Z_DATA_ERROR
  {
    DecodeOutcome(coder, dest, source[offset..], DecoderProps(lc, lp, pb, DictionaryOrDefault(dictionarySize)))
  }

  /** On any header the DD-WRT check accepts, lzmawrt_uncompress is
      lzmaspec_uncompress with the header's bytes, dictionary size 0 and
      offset 4. */
  lemma WrtIsSpecial(coder: Coder, dest: seq<bv8>, source: seq<bv8>)
    requires |dest| < TWO_64 && |source| >= WRT_HEADER_SIZE && WrtProps(source).Some?
    ensures WrtOutcome(coder, dest, source) ==
            SpecOutcome(coder, dest, source, source[1] as int, source[2] as int, source[0] as int, 0, WRT_HEADER_SIZE)
  {
  }

  /** Whatever the engine does, a successful entry point reports as *destLen
      the furthest position any write reached, never more than the
      capacity, and never touches dest beyond the capacity. */
  method Compress2(dest: array<bv8>, destLen: UInt64, source: seq<bv8>, level: int, coder: Coder)
    returns (status: ZStatus, newDestLen: UInt64)
    requires destLen <= dest.Length && |source| < TWO_64
    requires MIN_LEVEL <= level <= MAX_LEVEL
    modifies dest
    ensures var r := CompressOutcome(coder, old(dest[..destLen]), source, level);
            status == r.status && newDestLen == r.destLen && dest[..destLen] == r.contents
    ensures dest[destLen..] == old(dest[destLen..])
  {
    var inStream := new InMemory.InStream(source);
    var outStream := new OutMemory.OutStream(dest, destLen);
    var profile := CompressProfile(level);
    if !coder.acceptsEncoder(profile) {
      return Z_MEM_ERROR, destLen;
    }
    var result := Code(coder, Request(EncodeWith(profile), source, None), inStream, outStream);
    if result == E_OUTOFMEMORY {
      return Z_MEM_ERROR, destLen;
    } else if result != S_OK {
      return Z_BUF_ERROR, destLen;
    }
    var _, fileSize := outStream.Seek(0, STREAM_SEEK_END);
    return Z_OK, fileSize.value;
  }

  /** The tail lzmawrt_uncompress and lzmaspec_uncompress share. */
  method DecodeTail(dest: array<bv8>, destLen: UInt64, payload: seq<bv8>, props: DecoderProps, coder: Coder)
    returns (status: ZStatus, newDestLen: UInt64)
    requires destLen <= dest.Length && |payload| < TWO_64
    modifies dest
    ensures var r := DecodeOutcome(coder, old(dest[..destLen]), payload, props);
            status == r.status && newDestLen == r.destLen && dest[..destLen] == r.contents
    ensures dest[destLen..] == old(dest[destLen..])
  {
    var inStream := new InMemory.InStream(payload);
    var outStream := new OutMemory.OutStream(dest, destLen);
    if !coder.acceptsDecoder(props) {
      return Z_DATA_ERROR, destLen;
    }
    var result := Code(coder, Request(DecodeWith(props), payload, Some(destLen)), inStream, outStream);
    if result != S_OK {
      return Z_DATA_ERROR, destLen;
    }
    var _, fileSize := outStream.Seek(0, STREAM_SEEK_END);
    return Z_OK, fileSize.value;
  }

  method LzmaWrtUncompress(dest: array<bv8>, destLen: UInt64, source: seq<bv8>, coder: Coder)
    returns (status: ZStatus, newDestLen: UInt64)
    requires destLen <= dest.Length && WRT_HEADER_SIZE <= |source| < TWO_64
    modifies dest
    ensures var r := WrtOutcome(coder, old(dest[..destLen]), source);
            status == r.status && newDestLen == r.destLen && dest[..destLen] == r.contents
    ensures dest[destLen..] == old(dest[destLen..])
  {
    var props := WrtProps(source);
    if props.None? {
      return Z_DATA_ERROR, destLen;
    }
    status, newDestLen := DecodeTail(dest, destLen, source[WRT_HEADER_SIZE..], props.value, coder);
  }

  method LzmaSpecUncompress(dest: array<bv8>, destLen: UInt64, source: seq<bv8>,
                            lc: Int32, lp: Int32, pb: Int32, dictionarySize: Int32, offset: Int32, coder: Coder)
    returns (status: ZStatus, newDestLen: UInt64)
    requires destLen <= dest.Length && |source| < TWO_64 && 0 <= offset <= |source|
    modifies dest
    ensures var r := SpecOutcome(coder, old(dest[..destLen]), source, lc, lp, pb, dictionarySize, offset);
            status == r.status && newDestLen == r.destLen && dest[..destLen] == r.contents
    ensures dest[destLen..] == old(dest[destLen..])
  {
    var dictionary := DictionaryOrDefault(dictionarySize);
    status, newDestLen := DecodeTail(dest, destLen, source[offset..], DecoderProps(lc, lp, pb, dictionary), coder);
  }
}
