# MLF encoder in Dafny

A model of the MAHDA log-file (`.MLF`) encoder in `MLF.c` / `MLF.h`, with proofs
about it. The library has two entry points that share a small handler:

* `MLF_Init` stores the channel count in the handler. It sets the channel cursor
  to 0 and keeps a reference to the caller's channel-type array. It then writes
  the file header into the caller's buffer and reports its length through
  `*Size`. The header is:
  * the 12-byte tag `MAHDALOGFILE`;
  * the log type 0 and the version 3, each as 32-bit little-endian words;
  * the channel count N, as a 32-bit little-endian word;
  * one byte per channel holding its type code;
  * every channel name followed by one NUL.
* `MLF_AddSample` looks up the byte width of the channel under the cursor in the
  `DataTypeSize` table. It copies that many raw bytes of the sample to the front
  of the buffer, reports the width, and moves the cursor on cyclically.

The project is split into five modules:

* `Wrappers` (`wrappers.dfy`): the `Option` type used by the decoders.
* `MlfTypes` (`mlf_types.dfy`) models `MLF.h`:
  * `byte` and `u32`;
  * the 13-value `ChannelDataType` enumeration and its codes;
  * the channel-name type: at most 20 characters, none of them NUL.
* `MlfFormat` (`mlf_format.dfy`) models the format as values:
  * the `DataTypeSize` table, as `Width`;
  * the little-endian word, as `LE32` and its inverse `FromLE32`;
  * the header the encoder writes, as `Header`;
  * a header decoder, `ParseHeader`, used to show that the layout can be read
    back.
* `MlfStream` (`mlf_stream.dfy`) models what a sequence of `MLF_AddSample` calls
  produces:
  * the cursor (`NextChannel`, `Advance`);
  * the concatenated sample records (`Stream`);
  * a reader that splits them again using the channel types (`Unstream`).
* `Mlf` (`mlf.dfy`) is the imperative encoder:
  * the byte-level routines it calls: `strcpy`, `memset` and
    `MLF_CopyU32LittleEndian`;
  * the two loops of `MLF_Init`;
  * the `Handler` class, with `Init` and `AddSample` as methods;
  * `EncodeSamples`, the caller's loop that calls `AddSample` once per sample
    and collects each call's output, proved to produce `Stream`.

  Every write to the `array<byte>` buffer is specified as
  `buff[..] == Write(old(buff[..]), at, d)`. That says the bytes `d` land at
  offset `at` and every other byte is unchanged.

`*Size` in `MLF_Init` is a pointer difference truncated to `uint32_t`. The model
keeps the write position as an offset `p` from the start of the buffer and
reports `p % 2^32`.

Each name is written in two steps. First its `MAX_CHANNEL_NAME_SIZE + 1` = 21
byte slot is cleared with `memset`, then the name is copied in with `strcpy`.
The cursor then moves on by only `strlen + 1` bytes. So the writer touches
bytes beyond the header it reports: up to `HeaderExtent(names)`, which is
20 − |last name| bytes past `*Size`. `Handler.Init` requires a buffer that
large. It states that those extra bytes end up zero and that everything after
them is untouched.

The model follows `MLF.c` as written:

* there is no flags word after the tag;
* the log type comes before the version;
* each name takes `strlen + 1` bytes in the header, not a fixed slot;
* `DATETIME` samples are 4 bytes wide (`MLF.c:39`);
* names are never truncated;
* there is no size-only mode for a null buffer. That mode is described only in
  the doc comment of the commented-out `WriteFunction` parameter (`MLF.h:88`);
* there are no error codes: both entry points return `void`.

`MLF.c` spells the handler type `MLF_Handler` and the limit
`MAX_CHANNEL_NAME_SIZE`. `MLF.h` and `config/MLF_Config.h` declare them as
`MLF_Handler_t` and `MLF_CONFIG_MAX_CHANNEL_NAME_SIZE` (20). The model treats
each pair as the same thing.

## Model

| member | source | states |
|---|---|---|
| MlfTypes.Code | MLF.h:28-43 | The code of an enumerator is its position in the declaration: below 13, and `AllTypes[Code(t)] == t`. |
| MlfTypes.FromCode | MLF.h:28-43 | Decoding a code gives an enumerator exactly when the code is 0..12, and that enumerator's code is the input. |
| MlfTypes.FromCodeOfCode | MLF.h:28-43 | Decoding the code of any enumerator gives that enumerator back. |
| MlfFormat.Width | MLF.c:25-40 | The width is 0 exactly for INVALID. It is 1 for INT8, UINT8 and BIT, 2 for INT16 and UINT16, 4 for INT32, UINT32, FLOAT32 and DATETIME, and 8 for INT64, UINT64 and FLOAT64. Every width is in {0,1,2,4,8}. |
| MlfFormat.LE32RoundTrip | MLF.c:48-55 | Reassembling the four little-endian bytes of a 32-bit value gives the value back. |
| MlfFormat.FromLE32RoundTrip | MLF.c:48-55 | Any four bytes are the little-endian encoding of the value they read back as, so the encoding is a bijection. |
| Mlf.CopyU32LittleEndian | MLF.c:48-55 | Bytes `at..at+4` of the buffer become `LE32(value)`, with byte k holding bits 8k..8k+7. No other byte changes. |
| Mlf.StrCpy | MLF.c:127 | The characters of a NUL-free string and one NUL are written at `at`. No other byte changes. |
| Mlf.MemSetZero | MLF.c:126 | `count` zero bytes are written at `at`. No other byte changes. |
| Mlf.WritePreamble | MLF.c:109-116 | The buffer starts with tag, LE32(0), LE32(3) and LE32(N). The tag's NUL is overwritten by the log type. The returned position is 24. |
| Mlf.WriteTypeCodes | MLF.c:118-122 | After the first loop, byte `at + k` holds the code of channel k. When N > 0 it is followed by the three zero bytes of the last 4-byte write, and nothing else changes. |
| Mlf.WriteNameSlot | MLF.c:126-127 | A cleared 21-byte slot ends up holding the name, its NUL and zeros to the slot's end. |
| Mlf.WriteNames | MLF.c:124-129 | After the second loop the names follow one another, each with one NUL. The padding of the last slot comes after them. The returned position moves by the sum of `strlen + 1`. |
| Mlf.FillSlot | MLF.c:124-129 | One turn of the second loop turns the table of the first k names, and its padding, into that of the first k + 1 names. |
| Mlf.PaddingReachesExtent | MLF.c:126-128 | The header plus the zeros left by the last slot end exactly at `HeaderExtent`. |
| Mlf.Handler.constructor | MLF.h:48-53 | A zero-initialised handler: no channels, cursor 0, no type array. |
| Mlf.Handler.Init | MLF.c:94-131 | The handler holds N channels, with the cursor at 0. It references the caller's type array itself, not a copy. The buffer holds `Header(types, names)` from byte 0, then zeros up to `HeaderExtent`, and is unchanged after that. The reported size is the header length mod 2^32. |
| Mlf.Handler.AddSample | MLF.c:141-176 | The reported size is the width of the channel under the cursor before the call. The cursor becomes (c + 1) mod N. Bytes `0..size` of the buffer are the sample's first `size` bytes and the rest is unchanged, so nothing is written for INVALID. |
| MlfFormat.HeaderLength | MLF.c:108-130 | The header is 24 + N + Σ(len_i + 1) bytes long. |
| MlfFormat.HeaderPreamble | MLF.c:109-116 | Bytes 0..11 are `MAHDALOGFILE`. Bytes 12..15 are 0, 0, 0, 0. Bytes 16..19 are 3, 0, 0, 0. Bytes 20..23 are LE32(N). |
| MlfFormat.HeaderTypeAt | MLF.c:118-122 | Byte 24 + k is the code of channel k, for every k < N. |
| MlfFormat.HeaderNameAt | MLF.c:124-129 | Name i appears verbatim at offset 24 + N + Σ_{j<i}(len_j + 1), followed by one NUL. |
| MlfFormat.HeaderExtentBound | MLF.c:124-129 | The bytes the writer touches cover the header. They stay within 24 + 22·N bytes, since each name has at most 20 characters. |
| MlfFormat.ParseTypesOfTypeCodes | MLF.c:118-122 | The type-code bytes decode back to the channel types. |
| MlfFormat.ParseNamesOfNameTable | MLF.c:124-129 | NUL-terminated channel names followed by any bytes decode back to the names and the number of bytes they take. |
| MlfFormat.ParseNamesUsed | MLF.c:124-129 | The bytes the name reader consumes are exactly the name table of the names it returns. Each returned name is a channel name by its type: no NUL, at most 20 characters. |
| MlfFormat.HeaderRoundTrip | MLF.c:109-129 | A header of channel names followed by any bytes decodes to exactly its types, its names and its own length. |
| MlfFormat.ParseHeaderSound | MLF.c:109-129 | Whatever the decoder accepts has as many names as types, each a channel name (at most 20 characters, no NUL). Byte for byte, it is the header the encoder writes for the decoded types and names. |
| MlfStream.NextChannel | MLF.c:151-153 | Incrementing and resetting to 0 at N equals (c + 1) mod N, and stays below N. |
| MlfStream.AdvanceIsModular | MLF.c:150-153 | After k calls the cursor is (c + k) mod N. |
| MlfStream.FullCycle | MLF.c:150-153 | N consecutive calls bring the cursor back to where it started. |
| MlfStream.BackAtStart | MLF.c:150-153 | From channel 0, the cursor is back at 0 after k calls exactly when N divides k. |
| MlfStream.StreamRoundTrip | MLF.c:150-174 | Over any sequence of calls, the concatenated outputs can be read back using the header's channel types alone. Record i is the first w_i bytes of sample i, where w_i is the width of the channel the cursor was on at call i. |
| MlfStream.StreamLength | MLF.c:150-174 | Calls for channels c .. c + k − 1 produce exactly the sum of those channels' widths in bytes. |
| MlfStream.CycleLength | MLF.c:150-174 | One call per channel from channel 0 produces the sum of all the channel widths in bytes. |
| Mlf.EncodeSamples | MLF.h:96-97 | Calling `AddSample` once per sample and collecting each call's output produces exactly `Stream(types, c, samples)` from the cursor `c` the handler had. For k samples the cursor ends at `Advance(c, N, k)`, and the channel count and type array are unchanged. |

## Left out

- `MLF_TimeSecond` and the `MLF_DateTime_t` bit packing are not part of this model. Their definitions are not among the files modelled. A `DATETIME` sample is copied as 4 opaque bytes, as `MLF.c:39` says.
- `example/basic/main.c`: allocation, file writes, clocks and printing are not part of this model.
- Floating point: `FLOAT32` and `FLOAT64` samples are opaque bytes, and only their widths are modelled.
- Host byte order and the pointer-to-integer casts at `MLF.c:108,130` are not modelled. `*Size` is the write offset reduced mod 2^32.
- The commented-out `CheckASSERT` checks and the commented-out `WriteFunction` parameter are dead code and are not modelled.
- Mlf.Handler.Init: the doc comment says `MLF_Init` must be called first and once per file. The model enforces only "first": `AddSample` needs the type array that `Init` installs. A second `Init` is accepted and resets the handler, as the code allows.
- Mlf.Handler.Init: an `INVALID` channel type is accepted, as the code accepts it. Its samples are then empty.
- The handler keeps a reference to the caller's type array (`chDataType == chDataTypes`), and `AddSample` reads that array as it stands at each call (`MLF.c:150`). So a change the caller makes between calls takes effect at the next call. Within `EncodeSamples` the array stays as it is, since only `AddSample` runs there and it never writes the array.
- Concurrent use of a handler is not modelled.
