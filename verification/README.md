# Proofs about the algorithms of YAT

This project models, in Dafny, the algorithms of the YAT utility library that work on bytes, words and
paths, and the section tracker of the test framework it is built with. Each module says at its head
what it is about.

- **CRC-32** (`CrcTable`, `ShiftRegister`, `Crc32`). The table-driven loop is the bit-serial CRC-32 of
  section 8 of RFC 1952; it chains over any split of the data, is affine over exclusive-or, and tells
  any two buffers apart that differ only within 32 consecutive bits. 33 bits are too many, by example. Which
  register it is, is fixed by the check value and by the residue of every buffer.
- **The growable buffer** (`Growth`, `Items`, `MemBuf`). The object with its length, position and
  capacity refines a sequence of bytes with a cursor; overlapping moves are right; the cost of growth is
  bounded over every run of appends; every list of values put through the object is read back.
- **MD5** (`Md5Stream`, `Md5Block`, `Md5`, `Md5Hex`, `Md5Trace`, `Md5Vector`). Which blocks a run of `process` calls hands on,
  exactly when that does not depend on how the message was split, the padding of RFC 1321, the two-word
  length counter, the 64 unrolled steps against the loop of the RFC, and the whole object with its
  fields: in every run of calls for which the split does not matter, the signature is that of the padded
  message; and the block sizes by which every file is read in such a run. A test vector of the RFC is worked
  out step by step.
- **Byte swapping** (`Elements`, `Lanes`, `Kernels`, `Steps`, `Endianness`, `Swap16`). Every kernel, on
  registers of 16, 32 and 64 bits and for both kinds of host, and the array functions around them, on a
  memory that is one array, wherever source and target lie in it: prologue, unrolled loop and epilogue
  together against "reverse the bytes of each element", with the exact calls for which it holds, and what
  a second call in place does.
- **The section tracker and the generators of Catch** (`TestSections`, `SectionTracker`, `RunContext`,
  `Generators`, `FailingSections`). For every finite tree of sections, the cycle loop ends after one cycle per leaf, runs
  the leaves in depth-first order, and never reaches the "Illogical state" error. From no generator
  registered, all this happens once for every tuple of generator indices, in counting order, and every
  evaluation in pass n gives the index of its generator in tuple n. The trackers are heap objects that are
  linked to each other and mutated in place, as in the source. For every set of leaves that throw, on
  trackers that are values: the loop still ends, every leaf is still entered exactly once and in order, and
  the number of cycles that enter no leaf is known.
- **Paths** (`Paths`, `RelName`, `FileName`, `Mkdir`). Relative names, the parts of a name, and the
  making of missing directories on an abstract file tree in which any system call may fail.
- **The directory watcher** (`DirectoryWatcher`, `WatcherRuns`). What a call reports for any hash function,
  that where no hashes collide these are the differences, that following the reports over any run then gives
  the last listing, and, over runs of calls that leave out output vectors, since when a name is reported as
  changed.

## How the model is built

Objects that the source updates in place are classes with the same fields; loops stay loops, each proved
against a specification function. Facts about those functions are lemmas. Some invariants are long, and
handing them from one method to the next without taking them apart keeps the proofs short: they are
written "for every key looked at" (`Wrappers.Look`), and `assert Look(0)` opens one.

Where proofs would drown in bit-vectors, the algorithm is stated over any type of word with the laws it
needs (`ShiftRegister.Register`, `Md5Block.Steps`, `Md5Block.Words`), and the 32-bit words are proved to
satisfy those laws. MD5's object is generic in the same way; `Md5.Md5OfFile` is its use with 32-bit words.

## Where the code does not do what it says

The model follows the code. In these places that makes a documented property false, and the exact
condition for it is proved instead.

- `src/md5/md5.cpp:76` reads `stored_size & (input_length + stored_size >= BLOCK_SIZE)`, which tests
  whether `stored_size` is odd; and lines 103-104 empty the store when an input is used up without rest,
  as an empty input is. One call does what its comments say exactly for `SafeCall`
  (`Md5Stream.CallIsIntendedIff`), a run of calls exactly for `SafeRun` (`Md5Stream.RunIsWholeIff`).
- `FileName::md5sum` reads by the block size that `set_copy_bloc_size` sets (`include/yat/file/FileName.h:844`,
  `src/file/PosixFileImpl.cpp:909-912`), and accepts any. Its reads, when they are full, make safe runs for
  files of every length exactly when the block size is a multiple of 64, or 1
  (`Md5Stream.FullReadsAreSafeIff`); the block size the library starts with is one of these. Of a file of 200
  bytes read by 100 the object does not hold the blocks, for some content (`Md5Stream.TwoHundredByHundred`).
- The loop of `process` over whole blocks adds in 32 bits, and never ends for an input within 64 bytes of
  2^32, or a little less after an odd number of stored bytes (`Md5Stream.LoopEndsIff`).
- `src/bitsstream/Endianness.cpp:408`, 438 and 578 test `YAT_LITTLE_ENDIAN`, which no header defines; the
  configuration headers define `YAT_LITTLE_ENDIAN_PLATFORM`. The macro is a parameter of the model. Where
  it does not say what the host is and the target is not aligned, the unrolled loops turn round 4 or 8
  bytes in one piece instead of each element; `Endianness.CallIsRightIff` says exactly when a call is right.
  On x86-64 it concerns `swap_4_array`, whose 64-bit path writes in pieces chosen by the macro even after
  the swap instructions: `Endianness.FoursOnX86Fail` is a case.
- The array functions say nothing about a target that begins inside the source, above its start. They read
  elements there that they have overwritten, unless all is done in a single step
  (`Endianness.CallIsRightIff`, `Endianness.Run8IsRightIff`).
- `swap_16` overwrites the half it has yet to read when source and target are the same. `Swap16.Run16IsRightIff`
  gives the targets for which `swap_16_array` is right; in place it is right exactly when each element reads
  the same both ways (`Swap16.InPlace16Iff`), and a second call in place changes nothing more
  (`Swap16.Twice16`), while for smaller elements it restores the memory.
- `operator>>` of MemBuf does not look at what `get_bloc` returns (`src/memory/MemBuf.cpp:522-529`): with
  `__MOTOROLA_ENDIAN__` a variable is inverted also when nothing was read into it. `Items.UnreadKeepsIff`
  says when it keeps its value.
- `rel_name` counts empty components ("//") of the reference as directories, and begins with a separator
  when the first component below the reference is empty. `RelName.RelNameLeadsIff` gives the names for
  which the result leads to the file; `RelName.EmptyComponentMisleads` is a case of the others.
- `name_ext` drops a dot at the end of the name: `FileName.RebuildsIff`, and by example `FileName.NotRebuilt`.
  The other names that are not rebuilt, those without any separator, do not arise: `set_full_name` puts the
  working directory before every relative name (`src/file/PosixFileImpl.cpp:172-184`).
- The directory watcher keeps its entries by the hash of the name alone (`src/file/FileName.cpp:1147-1180`),
  and takes a name whose hash it knows for the known one. `DirectoryWatcher.FirstReportsRightIff`: reports
  on a first listing are right for all listings exactly when no two names have the same hash.

## Model

| member | source | states |
|---|---|---|
| CrcTable.TableIsShiftByte | src/memory/MemBuf.cpp:280-333 | each of the 256 table entries is eight shift-and-feedback steps of its index, with polynomial 0xEDB88320 |
| Crc32.Crc | src/memory/MemBuf.cpp:348-396 | the loop over the table gives the bit-serial CRC-32 of the buffer, or continues it from a given value |
| Crc32.CrcOfTwo | src/memory/MemBuf.cpp:336-347 | the chained calls described in the comment give the CRC of the concatenation |
| Crc32.BitSerialConcatenation | src/memory/MemBuf.cpp:336-396 | the register after two parts is the register after the second, started from that after the first, for every split |
| Crc32.ChecksumAffine | src/memory/MemBuf.cpp:348-396 | for buffers of equal length the exclusive-or of three CRCs is the CRC of the exclusive-or of the three |
| Crc32.DetectsBursts | src/memory/MemBuf.cpp:348-396 | two buffers of equal length that differ, and only within 32 consecutive bits, have different CRCs |
| Crc32.BurstOf33Undetected | src/memory/MemBuf.cpp:348-396 | 32 is the limit: two buffers that differ within 33 bits and have the same CRC |
| Crc32.CheckValue | src/memory/MemBuf.cpp:348-396 | the CRC of the digits "123456789" is 0xcbf43926 |
| Crc32.Residue | src/memory/MemBuf.cpp:348-396 | every buffer with the bytes of its own CRC appended, low byte first, has the CRC 0x2144df1c |
| ShiftRegister.RunBySplitting | src/memory/MemBuf.cpp:389-395 | why a table step is right: running a word splits into its low part, run alone, and its high part, shifted |
| ShiftRegister.BurstSeparates | src/memory/MemBuf.cpp:389-395 | a register whose step is one-to-one tells apart inputs that differ within one window |
| Growth.RoomIff | src/memory/MemBuf.cpp:149-161 | the capacity computed in uint32 has room for the size exactly when the size is below 2^32 - 2^20 |
| Growth.MarginIs | src/memory/MemBuf.cpp:149-161 | the margin is half of the size up to 2 MiB and 1 MiB from there on, and the least capacity is 24 |
| Growth.RunIsCheap | src/memory/MemBuf.cpp:149-182 | over any run of appends to an empty buffer of any capacity: copying at most three times the length up to 2 MiB, and at most 28 reallocations and one for each MiB |
| Growth.LargeStep | src/memory/MemBuf.cpp:149-161 | beyond 2 MiB a reallocation raises the capacity by more than 1 MiB |
| Growth.LeastLarge | src/memory/MemBuf.cpp:149-161 | the least capacity after so many reallocations, whatever was appended |
| MemBuf.Buffer.Realloc | src/memory/MemBuf.cpp:167-182 | keeps the bytes; does nothing when the wished size is smaller than what is in use |
| MemBuf.Buffer.PutBloc | src/memory/MemBuf.cpp:216-227 | appends to the sequence and keeps the cursor; the buffer is reallocated exactly when the bytes do not fit, with the margin of `Growth.MarginIs` |
| MemBuf.Buffer.InsertBloc | src/memory/MemBuf.cpp:232-248 | inserts into the sequence at the position |
| MemBuf.Buffer.GetBloc | src/memory/MemBuf.cpp:252-264 | gives the next bytes and moves the cursor, or reports 1 and leaves it |
| MemBuf.Buffer.MoveBloc | src/memory/MemBuf.cpp:269-274 | copies within the sequence, also when the areas overlap |
| MemBuf.Buffer.SetLen | src/memory/MemBuf.cpp:204-211 | the bytes that stay in use are kept and the cursor is at the start; there is a new buffer, without margin, exactly when the old one is too short |
| MemBuf.Buffer.SetPos | include/yat/memory/MemBuf.h:267-271 | the cursor goes to a place in what is in use, which the commented assertion asks for |
| MemBuf.Buffer.Empty | include/yat/memory/MemBuf.h:274-278 | the sequence is empty and the cursor at its start |
| MemBuf.Buffer.Assign | src/memory/MemBuf.cpp:116-131 | operator=: the same bytes and the same cursor |
| MemBuf.Buffer.Copy | src/memory/MemBuf.cpp:86-102 | the copy constructor: the same bytes, the cursor at the start |
| MemBuf.Buffer.Equals | src/memory/MemBuf.cpp:139-144 | operator== compares the bytes in use |
| MemBuf.Buffer.GetCrc | src/memory/MemBuf.cpp:401-404 | the bit-serial CRC-32 of the bytes in use |
| MemBuf.Buffer.PutBlocs | src/memory/MemBuf.cpp:216-227 | a run of appends: the bytes in order, and all of it together cost no more than `Growth.RunIsCheap` says |
| MemBuf.Buffer.PutItem | src/memory/MemBuf.cpp:479-636 | operator<< appends the value's bytes, inverted where that is compiled in |
| MemBuf.Buffer.GetItem | src/memory/MemBuf.cpp:484-644 | operator>> reads into a variable and moves the cursor; when too few bytes are left the cursor stays, and the variable is inverted all the same |
| MemBuf.Buffer.PutAll | src/memory/MemBuf.cpp:479-636 | a list of values written to the object appends the bytes of all |
| MemBuf.Buffer.GetAll | src/memory/MemBuf.cpp:484-644 | reading into a list of variables, some of which may find too few bytes |
| MemBuf.Buffer.PutAndGet | src/memory/MemBuf.cpp:479-644 | every list of values put through a buffer that was read to its end comes back, and the buffer is then read to its end |
| Items.DecodedEncoded | src/memory/MemBuf.cpp:513-644 | a value is read back from its bytes, on each host and with or without the inversions |
| Items.UnreadKeepsIff | src/memory/MemBuf.cpp:522-529 | a variable keeps its value when nothing is read exactly if nothing is inverted, or its bytes read the same both ways |
| Items.EncodedIsPortable | src/memory/MemBuf.cpp:513-644 | with the inversions compiled in where they belong, the bytes are the same on every host |
| Items.EncodedBytes8 | src/memory/MemBuf.cpp:479-505 | a single byte is written as it is |
| Items.EncodedBytes16 | src/memory/MemBuf.cpp:513-537 | the two bytes written, by shifts of the value: the low one first exactly when just one of little-endian host and inversions holds |
| Items.EncodedBytes32 | src/memory/MemBuf.cpp:547-619 | the four bytes written, in the same order |
| Items.EncodedBytes64 | src/memory/MemBuf.cpp:587-636 | the eight bytes written, in the same order |
| Items.ReadBack | src/memory/MemBuf.cpp:479-644 | any list of values, written and read back into variables of the matching types, is the same list and the cursor ends behind it |
| Md5Stream.CutInTwo | src/md5/md5.cpp:87-105 | cutting a concatenation into blocks is cutting the first part and then its tail with the second |
| Md5Stream.CallIsIntendedIff | src/md5/md5.cpp:71-105 | a call does what its comments say, whatever the bytes, exactly when it is a `SafeCall` |
| Md5Stream.RunIsWholeIff | src/md5/md5.cpp:65-109 | for every list of chunk sizes: the object holds the blocks and the tail of the whole message at the end, whatever the bytes, exactly when every call is safe |
| Md5Stream.SafeRunIsWhole | src/md5/md5.cpp:65-109 | a run of safe calls leaves the blocks and the tail of the whole message, however it was split |
| Md5Stream.WholeBlocksAreSafe | src/md5/md5.cpp:76-105 | chunks of whole blocks and a last one of any size are safe |
| Md5Stream.FullReadsAreSafeIff | src/file/PosixFileImpl.cpp:909-956 | full reads make safe runs, whatever the length of the file, exactly when the block size is a multiple of 64, or 1 |
| Md5Stream.TwoHundredByHundred | src/file/PosixFileImpl.cpp:940-956 | 200 bytes read by 100 do not, and some content is then held wrong |
| Md5Stream.TwoHundredHeld | src/md5/md5.cpp:76-105 | what the object then holds, whatever the bytes: the first 64 bytes of each half as blocks, and 72 bytes stored |
| Md5Stream.WholeBlockForgets | src/md5/md5.cpp:103-104 | an input of one whole block, or an empty one, loses an even number of stored bytes |
| Md5Stream.LoopEndsIff | src/md5/md5.cpp:76-93 | in 32 bits, the loop over whole blocks ends exactly when the input keeps a distance from 2^32 |
| Md5Stream.PaddingIsShortest | src/md5/md5.cpp:122-138 | the padding is the shortest of at least one byte that leaves room for the length |
| Md5Stream.PadInjective | src/md5/md5.cpp:114-158 | no two messages have the same padded form |
| Md5Stream.BlocksOfPadInjective | src/md5/md5.cpp:114-158 | messages that are hashed over the same blocks are the same |
| Md5Stream.ClosingBlocks | src/md5/md5.cpp:122-158 | what is stored at the end, closed by the padding, makes up the rest of the blocks of the padded message |
| Md5Stream.ClosingCount | src/md5/md5.cpp:151-158 | one more block when the length fits into the last one, and two otherwise |
| Md5Stream.CarryKeepsCount | src/md5/md5.cpp:118-120 | adding to the low word and carrying when it has wrapped keeps the count modulo 2^64 |
| Md5Stream.LengthInBits | src/md5/md5.cpp:140-149 | the two words computed from the counter are eight times the count modulo 2^64 |
| Md5Stream.LengthBytesWrap | src/md5/md5.cpp:140-149 | the length field is the low 64 bits of the length in bits, low byte first |
| Md5Block.RoundOne | src/md5/md5.cpp:264-279 | the 16 unrolled calls are the first 16 steps of the loop |
| Md5Block.RoundTwo | src/md5/md5.cpp:290-305 | the 16 unrolled calls are the next 16 steps, with word indices 5i + 1 |
| Md5Block.RoundThree | src/md5/md5.cpp:316-331 | the 16 unrolled calls are the next 16 steps, with word indices 3i + 5 |
| Md5Block.RoundFour | src/md5/md5.cpp:342-357 | the 16 unrolled calls are the last 16 steps, with word indices 7i |
| Md5Block.AllRounds | src/md5/md5.cpp:252-357 | the 64 unrolled calls are the loop of section 3.4 of RFC 1321, for any step functions |
| Md5Block.BlockPermutes | src/md5/md5.cpp:252-357 | before the final additions a block permutes the states of the registers, for any words whose sums and rotations can be undone |
| Md5Block.BlockPermutesRegisters | include/yat/md5/md5_loc.h:60-150 | and so it does for the 32-bit words, rotations, functions and table of MD5 |
| Md5Block.RoundFunctions | include/yat/md5/md5_loc.h:87-90 | F and G choose between two words bit by bit, as section 3.4 of RFC 1321 describes them, and G is F with its arguments in another order |
| Md5Block.ParityIsH | include/yat/md5/md5_loc.h:89 | H is the parity of its arguments, bit by bit |
| Md5Block.DifferenceIsI | include/yat/md5/md5_loc.h:90 | I is the difference of two words where the third has ones, and a complement elsewhere |
| Md5.Context.ProcessBlock | src/md5/md5.cpp:233-366 | counts the block, modulo 2^64, and hashes it |
| Md5.Context.Process | src/md5/md5.cpp:65-109 | hands on the blocks and keeps the bytes of `Md5Stream.Literal`, for every input with which the loop ends and the copies stay in the store; does nothing after the end |
| Md5.Context.ProcessNext | src/md5/md5.cpp:65-109 | after a safe call an object that held a message holds the longer one, whatever was stored |
| Md5.Context.Finish | src/md5/md5.cpp:114-175 | hands on the blocks of what is stored, closed by padding and length, for every store that they fit into, and keeps the signature |
| Md5.ClosedIsPadded | src/md5/md5.cpp:122-149 | for a store of less than a block that is the padding of the whole message |
| Md5.Context.FinishMessage | src/md5/md5.cpp:114-175 | an object that holds a message ends with the signature of the message |
| Md5.Context.OfBuffer | src/md5/md5.cpp:50-60 | the signature of a buffer at once is that of its padded bytes |
| Md5.ProcessAll | src/md5/md5.cpp:65-109 | any safe run of calls leaves the object holding the message, in whatever chunks it arrived |
| Md5.SignatureOf | src/md5/md5.cpp:65-175 | and ends with the signature of the message |
| Md5.Md5Sum | src/file/PosixFileImpl.cpp:917-963 | the signature of a file is that of its content, whatever number of bytes each read returns, as long as the run of these numbers is safe |
| Md5.Md5OfFile | src/file/PosixFileImpl.cpp:909-963 | the same with MD5's own words and full reads, for every file, at the block sizes of `Md5Stream.FullReadsAreSafeIff`; the one the library starts with is the default |
| Md5Vector.SignatureOfDigits | src/md5/md5.cpp:50-366 | the signature of "1234567890" eight times over is that of section A.5 of RFC 1321, byte by byte; it depends on every entry of the table, every shift and function, the order of the bytes and the padding |
| Md5Hex.SigToString | src/md5/md5.cpp:384-410 | two digits a byte as far as the room goes, then a terminator if there is room |
| Md5Hex.SigFromString | src/md5/md5.cpp:416-433 | the bytes that 32 digits stand for |
| Md5Hex.HexAt | src/md5/md5.cpp:384-410 | characters 2k and 2k + 1 are those of "0123456789abcdef" at the high and the low half of byte k |
| Md5Hex.UnhexOfHex | src/md5/md5.cpp:384-433 | reading back the string gives the signature |
| Md5Hex.HexOfUnhex | src/md5/md5.cpp:384-433 | and writing what was read gives the string |
| Lanes.KernelsAgree4 | src/bitsstream/Endianness.cpp:161-177 | masks and instructions are the same function of a 32-bit register, for elements and for two lanes of two bytes |
| Lanes.KernelsAgree8 | src/bitsstream/Endianness.cpp:518-535 | masks and instructions are the same function of a 64-bit register, with and without the rotation |
| Kernels.Chunk2Asm | src/bitsstream/Endianness.cpp:302-378 | the x86 chunk of four two-byte elements, written whole or in pieces, swaps each |
| Kernels.Chunk2Masks64 | src/bitsstream/Endianness.cpp:324-418 | the 64-bit chunk swaps each element, or reverses all eight bytes where pieces go out in the wrong order |
| Kernels.Chunk2Masks32 | src/bitsstream/Endianness.cpp:335-449 | the 32-bit chunk swaps each element, or reverses four bytes at a time |
| Kernels.Chunk4Long | src/bitsstream/Endianness.cpp:509-592 | the 64-bit chunk of four four-byte elements swaps each, or reverses eight bytes at a time |
| Kernels.Chunk4Short | src/bitsstream/Endianness.cpp:595-656 | the 32-bit chunk of four four-byte elements swaps each |
| Kernels.Swap2 | src/bitsstream/Endianness.cpp:122-147 | reverses two bytes on either kind of host |
| Kernels.Swap4 | src/bitsstream/Endianness.cpp:152-178 | reverses four bytes, by instruction or masks |
| Kernels.Swap8 | src/bitsstream/Endianness.cpp:183-236 | reverses eight bytes, by one or two instructions or masks |
| Elements.SwappedAt | src/bitsstream/Endianness.cpp:250-469 | what a swapped array holds at each byte |
| Elements.SwappedTwice | src/bitsstream/Endianness.cpp:122-245 | swapping twice gives the bytes back |
| Endianness.AlignBinaryIsNext | src/bitsstream/Endianness.cpp:75-79 | ALIGN_BINARY is the next aligned address |
| Endianness.AlignBinaryBits | src/bitsstream/Endianness.cpp:75-79 | what the code computes, on 64-bit words that do not wrap, has the properties of the next aligned address |
| Endianness.PrologueAligns | src/bitsstream/Endianness.cpp:255-279 | the prologue takes the fewest elements after which the unrolled loop reads from aligned addresses, unless the array ends before |
| Endianness.AlignedIff | src/bitsstream/Endianness.cpp:293-298 | whole registers are written exactly when the target is aligned: to 8 where longs are read, else to 4 |
| Steps.LayoutIsRightIff | src/bitsstream/Endianness.cpp:250-673 | single elements, then chunks, then single elements are right for every memory exactly when source and target are apart or all is one step, and the chunks turn round the elements |
| Endianness.SwapArray | src/bitsstream/Endianness.cpp:250-673 | swap_2_array and swap_4_array: prologue, loop and epilogue leave the memory of `Steps.LayoutRun`, wherever source and target lie |
| Endianness.CallIsRightIff | src/bitsstream/Endianness.cpp:250-673 | that is every element swapped and nothing else, whatever the memory holds, exactly when the target is on or below the source or behind it, or there is a single step; and the loop is not taken, or the macro, the kernel or the target's alignment let it write elements |
| Endianness.FoursOnX86Fail | src/bitsstream/Endianness.cpp:474-592 | on x86-64 with the macro undefined, four elements of four bytes from address 0 to address 36 go wrong |
| Endianness.InPlaceIsRight | src/bitsstream/Endianness.cpp:250-673 | in place every build swaps every element, whatever the macro says |
| Endianness.Swap8Array | src/bitsstream/Endianness.cpp:678-691 | one element after the other, wherever source and target lie |
| Endianness.Run8IsRightIff | src/bitsstream/Endianness.cpp:678-691 | that is every element swapped and nothing else exactly when the target is on or below the source or behind it, or there is one element at most |
| Endianness.SwapArrayTwice | src/bitsstream/Endianness.cpp:250-673 | two calls of swap_2_array or swap_4_array in place restore the memory |
| Endianness.Swap8ArrayTwice | src/bitsstream/Endianness.cpp:678-691 | two calls of swap_8_array in place restore the memory |
| Swap16.Swap16Array | src/bitsstream/Endianness.cpp:696-709 | one element after the other, each as two halves, wherever source and target lie |
| Swap16.Run16IsRightIff | src/bitsstream/Endianness.cpp:696-709 | that is every element swapped and nothing else, whatever the memory holds, exactly for a target eight bytes below the source or behind it, or eight bytes above it for a single element |
| Swap16.InPlace16Iff | src/bitsstream/Endianness.cpp:696-709 | in place it is that exactly when every element reads the same both ways |
| Swap16.Twice16 | src/bitsstream/Endianness.cpp:696-709 | a second call in place changes nothing, so that two calls restore the memory exactly in that case |
| Swap16.Swap16IsReversal | src/bitsstream/Endianness.cpp:241-245 | the two halves swapped one after the other reverse 16 bytes when the target is eight bytes off the source |
| Swap16.Swap16InPlace | src/bitsstream/Endianness.cpp:241-245 | in place they do so exactly when the bytes read the same both ways |
| Generators.AdvanceCounts | catch1/src/catch.hpp:8128-8137 | an advance adds one to the number that the indices stand for, and wraps to zero after the last |
| Generators.TupleOfNumber | catch1/src/catch.hpp:8128-8137 | indices and numbers correspond |
| Generators.NumberOfTuple | catch1/src/catch.hpp:8128-8137 | and the other way round, for every number below the product of the sizes |
| Generators.TupleAt | catch1/src/catch.hpp:8128-8137 | the first generator is the fastest: index i of tuple n is n divided by the product of the sizes before, modulo size i |
| Generators.VisitsEveryTupleOnce | catch1/src/catch.hpp:8128-8137 | each index tuple is the state after exactly one number of advances below the product of the sizes |
| Generators.GeneratorInfo.MoveNext | catch1/src/catch.hpp:8097-8103 | the next index, or zero and false after the last |
| Generators.GeneratorsForTest.GetGeneratorInfo | catch1/src/catch.hpp:8117-8126 | the generator of that name, or a new one at index zero behind the others |
| Generators.GeneratorsForTest.GetGeneratorIndex | catch1/src/catch.hpp:7812-7816 | the index of a generator, registered first if it is not known |
| Generators.GeneratorsForTest.Evaluate | catch1/src/catch.hpp:2577-2578 | the evaluations of a cycle give the indices of tuple n, and register what is new in order |
| Generators.RegisteredOnce | catch1/src/catch.hpp:8117-8126 | no generator is registered twice, and each is one that some cycle evaluates |
| Generators.EveryChoiceIsGivenOnce | catch1/src/catch.hpp:8128-8137 | for every choice of an index for each generator exactly one pass gives it to every evaluation |
| Generators.GeneratorsForTest.MoveNext | catch1/src/catch.hpp:8128-8137 | the objects' indices advance as the counter does |
| Generators.GeneratorsForTest.AdvanceFrom | catch1/src/catch.hpp:8128-8137 | call number n goes to tuple n + 1, and reports false, back at the start, exactly when n + 1 is the product of the sizes |
| Generators.ValueAt | catch1/src/catch.hpp:2577-2593 | indexing a composite generator indexes the concatenation of its parts, and fails beyond its end |
| Generators.ValueInPart | catch1/src/catch.hpp:2515-2593 | at an index i places into a part, a range gives its start plus i, and a list its value number i |
| Generators.NoValue | catch1/src/catch.hpp:2577-2593 | the internal error comes exactly at the indices from the common length of the parts on |
| TestSections.LeafPathsInOrder | catch1/src/catch.hpp:6700-6709 | the path to leaf k is number k of the leaf paths in depth-first order |
| TestSections.LeafPathsAreAllPaths | catch1/src/catch.hpp:6700-6709 | the leaf paths are all the paths from the root to a leaf |
| TestSections.LeafPathsOfConcat | catch1/src/catch.hpp:6700-6709 | the leaves of earlier sections come before those of later ones |
| TestSections.PathsDistinct | catch1/src/catch.hpp:6700-6709 | different leaves have different paths where siblings are distinct |
| SectionTracker.TrackerContext.StartRun | catch1/src/catch.hpp:6374-6379 | a run starts from a single new root |
| SectionTracker.TrackerContext.StartCycle | catch1/src/catch.hpp:6118-6121 | a cycle starts at the root, executing |
| SectionTracker.TrackerContext.Acquire | catch1/src/catch.hpp:6288-6309 | finds or adds the child of that name and location, and opens it unless it is complete or the cycle is |
| SectionTracker.Tracker.FindChild | catch1/src/catch.hpp:6192-6197 | the first child with that name and location |
| SectionTracker.Tracker.OpenChild | catch1/src/catch.hpp:6203-6209 | marks the trackers above as executing children |
| SectionTracker.Tracker.TryOpen | catch1/src/catch.hpp:6306-6309 | opens a tracker that is not complete |
| SectionTracker.Tracker.Close | catch1/src/catch.hpp:6221-6249 | the state it leaves, the parent current again, the cycle complete, and exactly when it throws |
| RunContext.RunContext.SectionStarted | catch1/src/catch.hpp:6776-6793 | a section is entered exactly when the leaf of this cycle lies below it |
| RunContext.RunContext.SectionEnded | catch1/src/catch.hpp:6806-6817 | closing the section never throws and counts one leaf more |
| RunContext.RunContext.RunSection | catch1/src/catch.hpp:8822-8841 | a section's guard object starts and ends the section around its body, and what runs is the path to this cycle's leaf |
| RunContext.RunContext.RunBody | catch1/src/catch.hpp:8822-8841 | a body meets its sections in order, and runs at most the one whose turn it is |
| RunContext.RunContext.RunCurrentTest | catch1/src/catch.hpp:6895-6938 | one run of the test reports the path to one leaf, and closes the test case without throwing |
| RunContext.RunContext.RunCycle | catch1/src/catch.hpp:6704-6708 | cycle k runs leaf k, and the test case is complete exactly after the last leaf |
| RunContext.RunContext.RunPass | catch1/src/catch.hpp:6700-6709 | the loop ends after as many cycles as there are leaves, each run once in depth-first order, without a throw; the generators evaluated in them are registered and give the indices of this pass |
| RunContext.RunContext.RunTest | catch1/src/catch.hpp:6700-6712 | from no generator registered: one pass for each tuple of the indices of the generators that the passes register, in counting order, with these indices; the generators are then back at the start |
| FailingSections.RunPass | catch1/src/catch.hpp:6700-6709 | whichever leaves throw, the loop ends without an illogical state, and cycle after cycle enters what `FailingSections.Log` says |
| FailingSections.BodyRuns | catch1/src/catch.hpp:6819-6827 | one visit to a section, whatever was visited before: which leaf it enters, whether it ends early, and what its trackers remember |
| FailingSections.EachLeafOnce | catch1/src/catch.hpp:6250-6258 | every leaf is entered exactly once, in depth-first order, whichever leaves throw |
| FailingSections.CycleCount | catch1/src/catch.hpp:6250-6258 | there are as many cycles as leaves, and one without a leaf for each section whose last section is a leaf that throws |
| FailingSections.TwoLeaves | catch1/src/catch.hpp:6221-6258 | of two leaves, one that throws costs a cycle without a leaf only if it is the last |
| Paths.JoinOfParts | src/file/PosixFileImpl.cpp:191-243 | a name is its components put together |
| Paths.PartsOfJoin | src/file/PosixFileImpl.cpp:191-243 | components put together and taken apart are the same |
| RelName.RelName | src/file/PosixFileImpl.cpp:191-243 | the two-cursor loop gives the relative name of `RelNameOf`; it is empty for the null name, and the name itself where one of the two has no separator |
| RelName.RelativeIs | src/file/PosixFileImpl.cpp:205-242 | as many "../" as the reference is deeper than the common directories, then the rest of the file's name |
| RelName.RelNameLeadsIff | src/file/PosixFileImpl.cpp:191-243 | from the reference's directory the relative name leads to the file exactly when no empty component is in the way |
| RelName.EmptyComponentMisleads | src/file/PosixFileImpl.cpp:191-243 | the name of "/a/f" relative to "/a//" is "../f", which does not lead there |
| FileName.PathAndLast | src/file/FileName.cpp:135-150 | the path is the name up to its last separator |
| FileName.NameAndExt | src/file/FileName.cpp:169-193 | name and extension divide the last component at its last dot; a dot in a directory, where the length wraps, leaves it whole |
| FileName.NameExtIs | src/file/FileName.cpp:223-235 | name with extension is the last component without a dot at its end |
| FileName.RebuildsIff | src/file/FileName.cpp:135-256 | path and name with extension give the full name back exactly when it is empty, or has a separator and no dot at its end |
| FileName.NullParts | src/file/FileName.cpp:135-256 | the parts of the null name "/dev/null", and of the empty name |
| FileName.NotRebuilt | src/file/FileName.cpp:135-256 | "/a/b." is given back as "/a/b" |
| Mkdir.FileTree.Mkdir | src/file/PosixFileImpl.cpp:270-345 | the walk over the separators tries the prefixes of the path in order, up to the first that cannot be passed |
| Mkdir.OnlyMakes | src/file/PosixFileImpl.cpp:293-344 | whether it throws or not, nothing that was there is touched, and all that is new are directories on the way |
| Mkdir.AllMade | src/file/PosixFileImpl.cpp:293-344 | when it does not throw, every prefix is a directory, and what is new are exactly the missing ones |
| Mkdir.SucceedsIff | src/file/PosixFileImpl.cpp:293-344 | it throws exactly when a prefix is something else than a directory, or stat fails for it, or it is missing and mkdir fails for it, or chmod or chown where they are called |
| Mkdir.ThrowsAt | src/file/PosixFileImpl.cpp:293-344 | what has been made when it throws: the missing prefixes before, and this one, if stat and mkdir did not fail for it |
| Mkdir.PrefixesAt | src/file/PosixFileImpl.cpp:291-344 | the places are where the first components of the path lead, in order |
| Mkdir.StaysRooted | src/file/PosixFileImpl.cpp:293-344 | every entry still lies in a directory, also when it throws half way |
| DirectoryWatcher.Watcher.constructor | src/file/FileName.cpp:1078-1092 | the first entries are those of the first listing, by hash, or none; they are the listing where no hashes collide |
| DirectoryWatcher.Watcher.GetChanges | src/file/FileName.cpp:1145-1208 | the entries it leaves and the names it reports, for each choice of output vectors and any hashes; without the changed vector known times stay, without the new one no name comes, without the removed one none goes; where no hashes collide, the index is the updated one and the report tells the differences |
| DirectoryWatcher.FirstReportsRightIff | src/file/FileName.cpp:1147-1189 | the report on a first listing is right, for every listing of the names, exactly when no two of them have the same hash |
| DirectoryWatcher.PassesForKnown | src/file/FileName.cpp:1161-1184 | a listed name under the hash of a known one is reported under the known name, which takes its time |
| DirectoryWatcher.LastIsRemembered | src/file/FileName.cpp:1078-1092 | of two names with the same hash the first listing leaves the last |
| DirectoryWatcher.UpdatedIsListing | src/file/FileName.cpp:1145-1208 | with all three vectors the index is the listing afterwards |
| DirectoryWatcher.NewNamesAre | src/file/FileName.cpp:1185-1189 | new names are those listed but not known, each once |
| DirectoryWatcher.ChangedNamesAre | src/file/FileName.cpp:1166-1184 | changed names are those listed and known with another time, each once |
| DirectoryWatcher.FollowingIsListing | src/file/FileName.cpp:1145-1208 | over any run, applying the reports gives the last listing |
| WatcherRuns.Call | src/file/FileName.cpp:1145-1208 | without collisions, the index after a call and its report name by name, for each choice of output vectors, in terms of what was known and what is listed |
| WatcherRuns.Calls | src/file/FileName.cpp:1145-1208 | the same over a run of calls with any vectors and listings |
| WatcherRuns.ChangedSinceIff | src/file/FileName.cpp:1166-1189 | after any such run a name is reported as changed exactly if it is listed with another time than at the last call that asked for changed files and listed it, or that made it known |
| WatcherRuns.ChangedSinceStartIff | src/file/FileName.cpp:1166-1189 | and where there was no such call, with another time than at the beginning |
| WatcherRuns.ReportsInOrder | src/file/FileName.cpp:1153-1190 | new and changed names are reported in the order of the listing |

## Left out

- Md5.Context.Finish: a store of more than 120 bytes, as some unsafe calls leave it, which the padding and the length do not fit into.
- Md5.Context.Process: inputs for which its loop does not end (`Md5Stream.LoopEndsIff`), and calls whose copies would leave the store, are outside its precondition.
- Md5.Md5Sum: a read that fails, or returns nothing before the end, as of a file that shrinks meanwhile.
- Md5.Context: the host is little-endian, as md5_loc.h assumes; the object also keeps the signature's string, which Md5Hex models on its own.
- Endianness: the branches for MSVC intrinsics, inline assembly for MSVC, and the library's bswap functions, which compute the same.
- MemBuf.Buffer.PutBloc: lengths for which the 32-bit sums wrap are outside its precondition, as the commented assertions of the source have it.
- MemBuf: the string operators, one of which does not move the cursor when it reads; attached buffers and their ownership; bytes that SetLen brings into use hold anything.
- SectionTracker.Tracker.Close: is only called on the current tracker, so its loop that closes open children never turns; section filters and index trackers are left out.
- RunContext.RunContext.RunTest: nothing throws, and the run is not aborted; reporters are the list of what they are told; which generators the body evaluates depends on the leaf alone, not on their values, and their sizes are at least one.
- FailingSections.RunPass: the trackers are values in one tree, so that their sharing and the pointer to the current one are not captured; only leaves throw, always or never.
- RelName.RelNameLeadsIff: names with "." or ".." components, and symbolic links.
- FileName.RebuildsIff: names of 2^64 characters or more.
- Mkdir.FileTree.Mkdir: symbolic links; access modes and owners are not part of the tree, only the failure of setting them.
- DirectoryWatcher.Watcher.GetChanges: whether the directory counts as changed, a matter of clocks, is a parameter; times do not change between the listing and the call.
- Wholly left out: configuration files and number formatting, sockets, plug-ins, locks, copying and moving of files, the Windows implementation, and the rest of Catch.
