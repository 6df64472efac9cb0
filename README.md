# LZMA zlib-style wrapper: a Dafny model

This project models `ZLib.cpp` of the `lzmadaptive` LZMA library, a wrapper that gives a
bounded-buffer, zlib-style API on top of an LZMA coder engine that speaks a stream interface.
It has three parts, and each is modelled here:

- **`CInMemoryStream`** (`in_memory.dfy`, module `InMemory`) is a read-only cursor over caller bytes.
  `Read`/`ReadPart` clamp the request to what remains, copy it and advance. `Seek` handles SET, CUR
  and END, and `GetSize` reports the size.
- **`COutMemoryStream`** (`out_memory.dfy`, module `OutMemory`) is a write cursor over a caller buffer
  of fixed capacity `m_maxsize`. It keeps the high-water mark `m_size`. `Write`/`WritePart` clamp to
  the capacity. `Seek` is bounded by the capacity, but its END goes to `m_size`. `SetSize` only
  validates its argument.
- **The entry points** (`zlib.dfy`, module `ZLib`) are `compress2`, `lzmawrt_uncompress` (DD-WRT
  SquashFS blocks, which carry pb/lc/lp in a 4-byte header) and `lzmaspec_uncompress` (explicit
  parameters, used for brute-force scanning).

Each stream is a Dafny `class`. The input bytes are a `seq<bv8>`, since the source only reads them.
The destination is an `array<bv8>` that `Write` updates in place. A pure datatype (`InState`,
`OutState`) describes each stream's state. Every method's `ensures` ties the new state to a
transition function of the old one (`Apply`, `Written`). The lemmas about sequences of calls
(`Run`) state the invariants: cursor within bounds, contiguous reads, `m_size` as the high-water mark.

The LZMA engine is foreign code. Module `Engine` (`engine.dfy`) makes it an arbitrary oracle:
a `Coder` says whether `SetCoderProperties`/`SetDecoderPropertiesRaw` accept a configuration.
For each `Code` request it also gives a `Plan`: the sequence of stream calls the engine makes, then
the HRESULT it returns. `Engine.Code` makes those calls on the real stream objects. Each entry
point is specified by a pure `...Outcome` function that holds for every `Coder`. Each method is
proved equal to its function.

Integer widths follow the source (module `Win`, `win.dfy`). `UInt32` sizes, `Int64` seek deltas and
`UInt64` positions are subset types. The source does the seek target and the `SetSize` comparison
in UInt64, and the model wraps them modulo 2^64 exactly as the source does (`ToUInt64`). The
source's test `_offset < 0` can never hold for an unsigned value. `SeekMeansIntended` and the
streams' `SeekExact` prove that, for sizes below 2^63, the wrapped arithmetic rejects exactly the
targets outside `[0, bound]`.

Where the documented behaviour of these routines and the code differ, the model follows the code:
- `lzmaspec_uncompress` applies no lc/lp/pb sanity check at all.
- `SetSize` and `Seek` reject negative arguments only through the UInt64 wrap-around.
- After a header-check failure, `lzmawrt_uncompress` leaves `dest` and `*destLen` untouched.
- A Seek from END ignores its delta on both streams: it always lands on `m_size`, so END plus k is never `m_size + k`.

Verify with `dafny verify win.dfy in_memory.dfy out_memory.dfy engine.dfy zlib.dfy`.

## Model

| member | source | states |
|---|---|---|
| Win.ToUInt64 | LZMA/lzmadaptive/C/7zip/Compress/LZMA_Lib/ZLib.cpp:96-99 | the conversion to UInt64 is the identity in range and adds or subtracts 2^64 once outside it |
| Win.SeekOutcome | LZMA/lzmadaptive/C/7zip/Compress/LZMA_Lib/ZLib.cpp:94-111 | a seek either moves to a position at most the bound or is refused with STG_E_INVALIDFUNCTION (exactly for an unknown origin) or STG_E_SEEKERROR; END targets `end` whatever the delta |
| Win.SeekMeansIntended | LZMA/lzmadaptive/C/7zip/Compress/LZMA_Lib/ZLib.cpp:103-104 | with a bound below 2^63, the wrapped UInt64 check accepts exactly the exact-integer targets in [0, bound] and moves there |
| InMemory.ReadCount | LZMA/lzmadaptive/C/7zip/Compress/LZMA_Lib/ZLib.cpp:74-75 | Read transfers min(size, m_size - m_offset): never more than asked or than remains, and all of one of them |
| InMemory.ReadBytes | LZMA/lzmadaptive/C/7zip/Compress/LZMA_Lib/ZLib.cpp:77-79 | the bytes handed out number exactly ReadCount |
| InMemory.SeekResultOf | LZMA/lzmadaptive/C/7zip/Compress/LZMA_Lib/ZLib.cpp:94-104 | the input stream's seek never moves past m_size |
| InMemory.SeekExact | LZMA/lzmadaptive/C/7zip/Compress/LZMA_Lib/ZLib.cpp:94-111 | SET goes to the delta, CUR moves by it, END goes to m_size (delta ignored), all checked against [0, m_size]; other origins give STG_E_INVALIDFUNCTION |
| InMemory.Apply | LZMA/lzmadaptive/C/7zip/Compress/LZMA_Lib/ZLib.cpp:72-112 | every Read or Seek keeps m_offset <= m_size and leaves the bytes alone |
| InMemory.Run | LZMA/lzmadaptive/C/7zip/Compress/LZMA_Lib/ZLib.cpp:72-112 | any sequence of calls keeps m_offset <= m_size |
| InMemory.SequentialReads | LZMA/lzmadaptive/C/7zip/Compress/LZMA_Lib/ZLib.cpp:72-87 | consecutive Reads hand out data[m_offset..] contiguously and advance the cursor by exactly the total, which never exceeds what remained |
| InMemory.InStream.constructor | LZMA/lzmadaptive/C/7zip/Compress/LZMA_Lib/ZLib.cpp:65-66 | a new stream views the given bytes at cursor 0 |
| InMemory.InStream.Read | LZMA/lzmadaptive/C/7zip/Compress/LZMA_Lib/ZLib.cpp:72-87 | copies ReadBytes into the buffer's first ReadCount bytes, leaves the rest of the buffer alone, advances the cursor by that count, returns S_OK |
| InMemory.InStream.ReadPart | LZMA/lzmadaptive/C/7zip/Compress/LZMA_Lib/ZLib.cpp:89-92 | behaves exactly as Read |
| InMemory.InStream.Seek | LZMA/lzmadaptive/C/7zip/Compress/LZMA_Lib/ZLib.cpp:94-112 | moves the cursor and reports the position exactly when SeekResultOf allows; otherwise returns its error with the cursor and the position untouched |
| InMemory.InStream.GetSize | LZMA/lzmadaptive/C/7zip/Compress/LZMA_Lib/ZLib.cpp:114-118 | reports m_size and S_OK |
| OutMemory.Initial | LZMA/lzmadaptive/C/7zip/Compress/LZMA_Lib/ZLib.cpp:130-131 | a new output stream has m_size = m_offset = 0 over the given capacity |
| OutMemory.WriteCount | LZMA/lzmadaptive/C/7zip/Compress/LZMA_Lib/ZLib.cpp:138-139 | Write stores min(size, m_maxsize - m_offset) bytes |
| OutMemory.Written | LZMA/lzmadaptive/C/7zip/Compress/LZMA_Lib/ZLib.cpp:136-154 | after Write the stored bytes sit at the old cursor, every other byte is unchanged, the cursor advances by WriteCount and m_size becomes max(m_size, m_offset) |
| OutMemory.SeekResultOf | LZMA/lzmadaptive/C/7zip/Compress/LZMA_Lib/ZLib.cpp:161-171 | the output seek never passes m_maxsize, and END always succeeds at m_size |
| OutMemory.SeekExact | LZMA/lzmadaptive/C/7zip/Compress/LZMA_Lib/ZLib.cpp:161-179 | SET and CUR are checked against [0, m_maxsize] in exact integers; unknown origins give STG_E_INVALIDFUNCTION |
| OutMemory.SetSizeResult | LZMA/lzmadaptive/C/7zip/Compress/LZMA_Lib/ZLib.cpp:181-187 | S_OK exactly when (UInt64)newSize <= m_maxsize, otherwise STG_E_MEDIUMFULL, so any negative size fails |
| OutMemory.Apply | LZMA/lzmadaptive/C/7zip/Compress/LZMA_Lib/ZLib.cpp:136-187 | every call keeps m_size <= m_maxsize and m_offset <= m_maxsize |
| OutMemory.Run | LZMA/lzmadaptive/C/7zip/Compress/LZMA_Lib/ZLib.cpp:136-187 | any sequence of calls keeps both bounds and the capacity |
| OutMemory.HighWaterBound | LZMA/lzmadaptive/C/7zip/Compress/LZMA_Lib/ZLib.cpp:145-148 | m_size never drops and every write leaves the cursor at or below the final m_size |
| OutMemory.HighWaterAttained | LZMA/lzmadaptive/C/7zip/Compress/LZMA_Lib/ZLib.cpp:145-148 | the final m_size is the initial one or the cursor right after some write, so it is the high-water mark of the writes |
| OutMemory.OutStream.constructor | LZMA/lzmadaptive/C/7zip/Compress/LZMA_Lib/ZLib.cpp:130-131 | a new stream over the first maxsize bytes of dest, empty |
| OutMemory.OutStream.Write | LZMA/lzmadaptive/C/7zip/Compress/LZMA_Lib/ZLib.cpp:136-154 | updates the buffer, cursor and m_size as Written says, touches nothing beyond m_maxsize, reports WriteCount and S_OK |
| OutMemory.OutStream.WritePart | LZMA/lzmadaptive/C/7zip/Compress/LZMA_Lib/ZLib.cpp:156-159 | behaves exactly as Write |
| OutMemory.OutStream.Seek | LZMA/lzmadaptive/C/7zip/Compress/LZMA_Lib/ZLib.cpp:161-179 | moves the cursor and reports it exactly when SeekResultOf allows, otherwise returns the error with nothing changed |
| OutMemory.OutStream.SetSize | LZMA/lzmadaptive/C/7zip/Compress/LZMA_Lib/ZLib.cpp:181-187 | returns SetSizeResult and changes no field |
| Engine.Code | LZMA/lzmadaptive/C/7zip/Compress/LZMA_Lib/ZLib.cpp:241-241 | the engine's stream calls take the streams through Run of its calls; dest beyond the capacity is never touched; the engine's HRESULT is returned |
| Engine.FinalOut | LZMA/lzmadaptive/C/7zip/Compress/LZMA_Lib/ZLib.cpp:251-253 | whatever the engine does, the output ends within the capacity with m_size <= capacity |
| Engine.FinalSizeIsHighWater | LZMA/lzmadaptive/C/7zip/Compress/LZMA_Lib/ZLib.cpp:251-253 | the length reported after Seek(0, END) is the furthest the cursor reached at the end of any write, or 0 |
| ZLib.CompressProfile | LZMA/lzmadaptive/C/7zip/Compress/LZMA_Lib/ZLib.cpp:209-236 | the encoder profile's dictionary is positive |
| ZLib.CompressDictionaryGrows | LZMA/lzmadaptive/C/7zip/Compress/LZMA_Lib/ZLib.cpp:225-230 | 1 << (level + 14) strictly grows with level and the other settings (pb 2, lc 3, lp 0, algorithm 2, 128 fast bytes, BT4, end marker) do not depend on level |
| ZLib.CompressDictionarySizes | LZMA/lzmadaptive/C/7zip/Compress/LZMA_Lib/ZLib.cpp:225-225 | level 1 gives 32 KiB, level 9 gives the decoders' 8 MiB, and every allowed level fits a UInt32 |
| ZLib.CompressOutcome | LZMA/lzmadaptive/C/7zip/Compress/LZMA_Lib/ZLib.cpp:238-255 | Z_OK iff the profile is accepted and Code returns S_OK; Z_MEM_ERROR iff refused or E_OUTOFMEMORY; Z_BUF_ERROR for any other failure; never Z_DATA_ERROR; *destLen changes only on Z_OK, to the high-water mark, which is at most the capacity |
| ZLib.Compress2 | LZMA/lzmadaptive/C/7zip/Compress/LZMA_Lib/ZLib.cpp:195-256 | dest and the returned length are those CompressOutcome gives; dest beyond *destLen is untouched |
| ZLib.DecodeOutcome | LZMA/lzmadaptive/C/7zip/Compress/LZMA_Lib/ZLib.cpp:394-407 | Z_OK iff the raw properties are accepted and Code returns S_OK, with *destLen the high-water mark, at most the capacity; any failure is Z_DATA_ERROR with *destLen unchanged; the expected size passed is *destLen |
| ZLib.DecodeTail | LZMA/lzmadaptive/C/7zip/Compress/LZMA_Lib/ZLib.cpp:397-407 | dest and the returned length are those DecodeOutcome gives; dest beyond *destLen is untouched |
| ZLib.WrtProps | LZMA/lzmadaptive/C/7zip/Compress/LZMA_Lib/ZLib.cpp:386-395 | a DD-WRT header is accepted iff pb <= 4 and lc + lp <= 4 (the three single checks are implied), yielding lc = byte 1, lp = byte 2, pb = byte 0 and the 8 MiB dictionary |
| ZLib.WrtHeaderRoundTrip | LZMA/lzmadaptive/C/7zip/Compress/LZMA_Lib/ZLib.cpp:386-395 | every parameter set within the bounds, written into a header, reads back unchanged whatever follows |
| ZLib.WrtPropsAreHeader | LZMA/lzmadaptive/C/7zip/Compress/LZMA_Lib/ZLib.cpp:386-395 | every accepted header's first four bytes are the header of what it yields |
| ZLib.WrtOutcome | LZMA/lzmadaptive/C/7zip/Compress/LZMA_Lib/ZLib.cpp:365-408 | a rejected header gives Z_DATA_ERROR with dest and *destLen untouched, the same for every engine; an accepted one decodes source[4..] with the header's parameters |
| ZLib.LzmaWrtUncompress | LZMA/lzmadaptive/C/7zip/Compress/LZMA_Lib/ZLib.cpp:365-408 | dest and the returned length are those WrtOutcome gives; dest beyond *destLen is untouched |
| ZLib.DictionaryOrDefault | LZMA/lzmadaptive/C/7zip/Compress/LZMA_Lib/ZLib.cpp:430-434 | a dictionary size of 0 or less becomes 1 << 23; a positive one is kept |
| ZLib.SpecOutcome | LZMA/lzmadaptive/C/7zip/Compress/LZMA_Lib/ZLib.cpp:421-449 | decodes source[offset..] with lc, lp and pb as given, unchecked, and the defaulted dictionary |
| ZLib.WrtIsSpecial | LZMA/lzmadaptive/C/7zip/Compress/LZMA_Lib/ZLib.cpp:386-437 | on accepted headers, lzmawrt_uncompress is lzmaspec_uncompress with the header's bytes, dictionary 0 and offset 4 |
| ZLib.LzmaSpecUncompress | LZMA/lzmadaptive/C/7zip/Compress/LZMA_Lib/ZLib.cpp:411-450 | dest and the returned length are those SpecOutcome gives; dest beyond *destLen is untouched |

## Left out

- The LZMA encoder and decoder (`CEncoder`, `CDecoder`, `SetCoderProperties`, `SetDecoderPropertiesRaw`, `Code`) are foreign code. A `Coder` oracle stands in for them, so no compress/decompress round trip is claimed.
- The `Plan` of Code is fixed when the request is made; an engine that picks its next call from earlier stream results is covered only as the call sequence it ends up making.
- The COM plumbing is not modelled: `CMyComPtr`, `MY_UNKNOWN_IMP1/2` and reference counting carry no behaviour.
- The `PROPVARIANT`/`BSTR`/`VT_BOOL` carriers of the encoder properties are replaced by the plain `EncoderProfile` record.
- The commented-out `lzmalib_uncompress`, `lzmalinksys_uncompress` and `lzma7z_uncompress` are not compiled, so they are not modelled.
- The zlib and Gentoo macro shims and the header includes are build configuration.
- The source's `const` input bytes are a value (`seq<bv8>`). Aliasing between source and dest is not modelled.
- `sourceLen` is the length of that sequence.
- `processedSize` and `newPosition` may be null pointers in the source. The model always returns the processed size. It returns the position as `Some` exactly when the source would write it.
- Zlib status codes and HRESULTs are symbolic constructors, not their numeric values.
- LzmaWrtUncompress: requires `sourceLen >= 4`. The source computes `sourceLen - 4` unchecked, and the underflow for shorter input is not modelled.
- LzmaSpecUncompress: requires `0 <= offset <= sourceLen`. Other offsets are out-of-bounds pointer arithmetic in the source.
- Compress2: requires `-14 <= level <= 16`, the range where `1 << (level + 14)` is a defined positive C int.
- Memory allocation is not modelled: the `new` of the streams and coders cannot fail.
