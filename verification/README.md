# ezh byte writer, modelled in Dafny

ezh is a header-only C++ helper for writing fixed-layout binary data. It takes a
pack of fundamental, non-pointer values and copies each value's native bytes,
back to back and in argument order, to one of two in-memory destinations:

- `writeToRawMemory(char* buffer, args...)` throws on a null pointer. Otherwise it
  `memcpy`s each argument to a cursor, advances the cursor by `sizeof(arg)`, and
  returns the cursor.
- `writeToBuffer(std::vector<char>& buffer, size_t offset, args...)` adds up the
  widths of the arguments. It throws if `offset + requiredSize > buffer.size()`.
  Otherwise it writes through `writeToRawMemory` at `buffer.data() + offset` and
  returns `offset + requiredSize`.

The project has three modules:

- `Layout` (layout.dfy) holds the pure part. An argument (`Value`) is a non-empty
  byte sequence standing for its `sizeof(arg)` native bytes. `TotalSize` is the
  size fold. `Flatten` is the bytes a pack produces. `Splice` is memory after a
  copy. The lemmas cover chaining, read-back and concatenation.
- `Capacity` (capacity.dfy) holds the `size_t` capacity check. It has the check as
  written, which wraps around, and the overflow-safe check that the model uses
  (see Findings).
- `Writer` (writer.dfy) holds the imperative part. A `char*` is a `Ptr`: either
  `Null` or a position in an `array<byte>`. `MemCpy` copies byte by byte.
  `WriteToRawMemory` loops over the pack with a cursor. `WriteToBuffer` checks
  and then delegates. Both writers return a `Result` whose `Err` side stands for
  the thrown `std::runtime_error`. `WriteChained` and `BufferScenario` are clients
  that chain calls through the returned offset.

## Model

| member | source | states |
|---|---|---|
| `Layout.TotalSize` | ezh.h:98 | the unary fold `(sizeof(args) + ...)` gives at least one byte per argument; that it adds up over concatenated packs is `Layout.TotalSizeAppend`, and that it is the number of bytes written is `Layout.Flatten` |
| `Layout.Flatten` | ezh.h:68 | the bytes a pack produces are exactly as many as the summed widths `requiredSize` |
| `Layout.TotalSizeAppend` | ezh.h:98 | the width of a concatenated pack is the sum of the two packs' widths |
| `Layout.FlattenAppend` | ezh.h:68 | the bytes of a concatenated pack are the first pack's bytes followed by the second's |
| `Layout.FlattenPrefixStep` | ezh.h:67-68 | one more step of the fold appends exactly the next argument's bytes, and a prefix never exceeds the whole pack's width |
| `Layout.FlattenAt` | ezh.h:68 | argument k sits at the summed width of the arguments before it, and its own width reads it back unchanged (no padding, no framing) |
| `Layout.Splice` | ezh.h:68 | after a copy at `at`, the length is unchanged, `[at, at+n)` holds the copied bytes, and every other byte is untouched |
| `Layout.SpliceChain` | ezh.h:67-68 | copying `a`, then copying `b` at the cursor advanced by the length of `a`, is the same as copying `a + b` once |
| `Layout.SplicePrefixStep` | ezh.h:67-68 | one `memcpy` of argument k at the cursor advanced past the first k arguments turns the memory holding the first k arguments' bytes into the memory holding the first k + 1 arguments' bytes |
| `Layout.PackChain` | ezh.h:76-78 | writing pack `a` at `offset` and then pack `b` at the offset that write returns gives the same memory and the same final offset as writing `a + b` at `offset` once |
| `Layout.SplicedReadBack` | ezh.h:104-107 | after a write at `offset`, each argument can be read back from the memory at `offset` plus the widths before it |
| `Capacity.AddSizeT` | ezh.h:100 | `size_t` addition is the sum modulo 2^64 |
| `Capacity.TooSmallAsWritten` | ezh.h:100 | the check as written compares the `size_t` sum `offset + requiredSize`, wrapped modulo 2^64, with `buffer.size()`; it never throws when the payload fits |
| `Capacity.AsWrittenMissesWrap` | ezh.h:100 | the as-written check accepts offset SIZE_MAX with a 4-byte payload into a 10-byte buffer |
| `Capacity.AsWrittenAcceptsWrapped` | ezh.h:100-102 | if the sum wraps to at most the buffer size, the as-written check does not throw, even though the write does not fit |
| `Capacity.TooSmall` | ezh.h:100-102 | the overflow-safe check rejects exactly when `offset + requiredSize > buffer.size()` in exact arithmetic |
| `Capacity.AsWrittenAgreesWithoutWrap` | ezh.h:100 | when the sum does not wrap, the as-written check and the overflow-safe check agree |
| `Writer.MemCpy` | ezh.h:68 | `memcpy` changes exactly the destination bytes `[at, at + n)` for an `n`-byte source, and they become `src` |
| `Writer.WriteToRawMemory` | ezh.h:60-71 | a null pointer gives `NullBufferPointer` and changes nothing; otherwise the bytes from the pointer become the pack's bytes in order, all other bytes are untouched, and the result is `buffer.Advance(TotalSize(args))`, the pointer after `ptr += sizeof(arg)` for every argument, that is, advanced by `requiredSize` (the pointer itself for an empty pack) |
| `Writer.WriteToBuffer` | ezh.h:95-108 | succeeds exactly when `offset + requiredSize <= buffer.size()` in exact arithmetic (the corrected check; see Findings); on failure gives `BufferTooSmall` and every byte is unchanged; on success returns `offset + requiredSize` (at most the buffer size), keeps the length, puts the pack's bytes in `[offset, offset+requiredSize)` and leaves every other byte as it was |
| `Writer.WriteChained` | ezh.h:76-93 | the first call succeeds exactly when `a` fits and then returns `offset` plus the width of `a`; if it fails, the second call is not made and the buffer is unchanged; the second call succeeds exactly when `a + b` fits, and then the buffer and final offset are those of one call with `a + b`; if only `a` fits, `a`'s bytes stay written (the chain is not atomic) |
| `Writer.BufferScenario` | ezh.h:97-107 | in a 10-byte buffer, two 4-byte writes return offsets 4 and 8 and hold their values in order; a third 4-byte write fails (8 + 4 > 10) |

## Findings

| source | as written | input that shows it | evidently intended | confidence | as-written member | corrected member |
|---|---|---|---|---|---|---|
| ezh.h:100 | `offset + requiredSize > buffer.size()` is computed in `size_t` and wraps | `offset = SIZE_MAX`, one 4-byte argument, a 10-byte buffer: the sum wraps to 3, nothing is thrown, and `memcpy` writes at `buffer.data() + SIZE_MAX` | throw whenever the payload does not fit from `offset` (for example `offset > size \|\| requiredSize > size - offset`) | not executed; the arithmetic is proved | `Capacity.AsWrittenMissesWrap` | `Capacity.TooSmall` |

`Writer.WriteToBuffer` uses the corrected check. `Capacity.AsWrittenAgreesWithoutWrap`
proves that it gives the same answer as the code on every input whose sum does
not wrap.

## Left out

- `writeToFile` (ezh.h:28-39) is not modelled. It only forwards to `std::ofstream::write` and to the stream's open/fail state, which is stream I/O.
- The native byte representation of each argument (its endianness, float encoding, `sizeof` per platform) is not modelled. Each argument is an opaque non-empty byte sequence, and nothing is decoded.
- The `std::enable_if` restriction to fundamental, non-pointer types is a compile-time check. It is captured by the argument type `Value`, not modelled.
- The `std::runtime_error` message strings are replaced by the two `Error` values.
- `Writer.WriteToRawMemory` requires that the pointed-to block has room for the pack. The source leaves that to its caller and does not check it (overrunning it is undefined behaviour).
- `Writer.WriteToBuffer` requires a non-empty pack, because `(sizeof(args) + ...)` does not compile for an empty pack. It also requires that the pack's width and the buffer's size fit in `size_t`, which any C++ pack and `std::vector` already do. `Layout.TotalSize` itself is computed in unbounded arithmetic. `size_t` is taken to be 64 bits.
- `Writer.WriteToBuffer` returns `BufferTooSmall` when `offset + requiredSize` wraps around in `size_t`. When the wrapped sum is at most `buffer.size()` (`Capacity.AsWrittenAcceptsWrapped`), the source throws nothing and goes on to write out of bounds (see Findings). When the wrapped sum is larger, the source throws, as the model does. The model follows the corrected check and does not model that out-of-bounds write.
- A `std::vector<char>` is modelled as an `array<byte>`, and `buffer.data() + offset` as a `Ptr` into that array. Raw pointers that alias other objects, and pointer arithmetic past the block, are not modelled.
