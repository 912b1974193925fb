# Compression libraries: bzip2 and zlib

A Dafny model, with proofs, of the two compression libraries under `deps/`: all of bzip2's compressor
and decompressor, and of zlib the matchers of deflate, the decoder of inflate, and both checksums.
Arrays, work areas and state records that the C code updates in place are arrays and classes here, its
loops are loops, and every method is proved against a specification of its own.

`dafny verify dfyconfig.toml` checks the project.

## How it is laid out

bzip2, from the block sort outwards:

- `Rotations`, `Counting`, `RangePermutation`, `RangeStack` and `ThreeWayPartition` say what both sorters
  share. `FallbackQSort`, `FallbackOrder`, `BucketBits` and `FallbackSort` are the fallback sort;
  `MainCompare`, `MainSimpleSort`, `MainQSort`, `MainOrder`, `MainScan`, `MainRadix` and `MainSort` the main
  one; `BlockSort` chooses between them.
- `Bwt` and `InverseBwt` undo the sort; `MoveToFront`, `MtfSymbols` and `MtfEncoder` are the next stage.
- `CanonicalCode`, `HuffmanTables`, `CodeHeap`, `CodeForest`, `MergeCost`, `CodeLengths` and `TableChoice` are
  the Huffman stage.
- `Bits`, `BitIO`, `BlockFormat`, `SelectorCodes`, `BlockWriter`, `BlockReader`, `SymbolDecoder`,
  `BlockEncoder` and `BlockDecoder` are the bits of a block, written and read.
- `RunLength`, `BlockCrc`, `BlockBuilder`, `StreamFormat`, `Compressor`, `RunOutput`, `Decompressor` and
  `BuffToBuff` are the library as its callers see it.

zlib:

- `DeflateHash`, `DeflateChains`, `DeflateMatch`, `DeflateWindow`, `DeflateTokens`, `DeflateSteps` and `Deflate`
  turn input into tokens.
- `ReversedBits`, `CodeOrder`, `InflateCodes`, `InflateSteps` and `InflateTable` build decoding tables;
  `InflateDecode` and `InflateBlock` read a block with them; `InflateWindow` turns tokens into output.
  `DeflateInflate` puts the two directions together.
- `Words32`, `Crc32`, `Crc32Combine` and `Adler32` are the checksums.

## What the main results say

- Both block sorts leave a permutation of the rotations in rotation order, for every block including
  periodic ones, and give the block back as it was. The explicit stacks never overflow and the cursors of
  the main sort meet as its assertion 1007 says.
- Undoing the sort gives back the block from any sorted order; the packed and the small-memory decoder put out
  the same bytes for every last column and every starting row, whatever the memory held before.
- Code lengths are found for all frequencies with a sum below 2^23: the search ends, the lengths satisfy Kraft's
  equality and no prefix code is cheaper.
- For any sequence of calls and any buffer sizes what the compressor has written is a stream for the input
  taken, with the tables its choice leads to and the right checksums, and both decoders give that input back.
- Whatever the input, the decompressor takes it for a whole stream only if every checksum in it is that of the data
  put out. For the blocks of a stream with any words in the places of the checksums, the outcome is exact: the data up
  to the first block whose word is wrong, and the end of the stream exactly if none is. The beginning of a stream is
  never taken for a whole one.
- A successful `inflate_table` decodes every bit buffer that starts with a code as that code's symbol and
  length; it turns away exactly the sets of lengths it should, and those whose tables need too much space. Inflate
  takes bits for a block exactly if they are the codes and extra bits of a list of tokens.
- The tokens that deflate tallies tell exactly the input, at every level from 1 on, for every strategy, flush and
  size of window; and inflate turns them back into it, however its output and its tokens are cut into calls. Every
  token comes from a step that keeps the rule of its matcher: a match where the string that stands first on the hash
  chain gives one, at least as long, with the lazy rule of the higher levels.
- The table-driven, word-at-a-time CRC-32 of either byte order is the shift register's; combining two checksums is
  the checksum of one piece of data after the other, for CRC-32 and for Adler-32.

Two things the code does not do are stated with their exact conditions. `adler32` called with a single byte
takes off at most one multiple of 65521, so with a starting value whose high half is not reduced the
result may not be reduced (`Adler32.Adler32`, `Adler32.OneByteFails`). The loop of `fill_window` never takes a
second turn, as its condition cannot hold after the first (`Deflate.Deflater.FillWindow`).

## Model

| member | source | states |
|---|---|---|
| Rotations.CmpIsLexicographic | deps/bzip2/blocksort.c:345-469 | the order of rotations that both sorters are held to, defined by comparing byte after byte round the block, is the lexicographic order of the rotated strings |
| ThreeWayPartition.Scan | deps/bzip2/blocksort.c:132-160 | the scanning loop that both quicksorts share ends with nothing unscanned: keys equal to the pivot at both ends, the lesser before the greater between them, as a rearrangement of the stretch only |
| RangeStack.DepthBound | deps/bzip2/blocksort.c:109-178 | with the smaller part pushed last, a stack of stretches over fewer than 2^31 entries holds fewer than 68, so assertion 1004 cannot fire |
| FallbackQSort.QSort3 | deps/bzip2/blocksort.c:88-178 | the stretch is permuted into order of class, nothing outside it moves, and two stack slots are always free |
| BucketBits.SkipRun | deps/bzip2/blocksort.c:277-292 | the scan that skips whole words of header bits stops at the first bit that differs, as a scan bit by bit would |
| FallbackSort.RefinePass | deps/bzip2/blocksort.c:273-311 | one pass takes a list in order to depth h, with header bits exactly at the bucket starts, to one in order to depth 2h |
| FallbackSort.Sort | deps/bzip2/blocksort.c:211-329 | for every block of at least one byte fmap ends as a permutation in rotation order and the block is as it was |
| MainCompare.GtU | deps/bzip2/blocksort.c:345-469 | comparing with quadrants, up to the overshoot of 34 bytes, answers as the rotation order does, ties aside; the budget pays at most one for every eight bytes of the block, and two |
| MainSimpleSort.SimpleSort | deps/bzip2/blocksort.c:477-555 | Shell sort leaves the stretch in rotation order unless the budget runs out, and a permutation of it in any case; what it takes from the budget is bounded |
| MainQSort.QSort3 | deps/bzip2/blocksort.c:620-717 | the stretch ends in rotation order unless the budget runs out; at least three stack slots are free at every pop, so assertion 1001 cannot fire |
| MainOrder.SideOrder | deps/bzip2/blocksort.c:911-944 | rotations below the string of one byte only come before those above it, which is why the two scans do not mix |
| MainScan.ScanDone | deps/bzip2/blocksort.c:911-944 | after the left and the right scan of a sorted big bucket every small bucket ending in its byte is complete and in order, and the cursors have met as assertion 1007 says |
| MainSort.Sort | deps/bzip2/blocksort.c:750-1011 | unless the budget runs out ptr ends as a permutation in rotation order; the block is as it was; a budget of 256 times 13 n squared (n/8 + 2), for a block of n bytes, never runs out |
| BlockSort.Sort | deps/bzip2/blocksort.c:1031-1089 | whichever sort is used, and when the first is given up, the rotations are in order and origPtr is the place of rotation 0 |
| Bwt.RoundTrip | deps/bzip2/decompress.c:560-573 | from the last column under any sorted order, ties included, and the row of the original, the decoder delivers the block |
| InverseBwt.DecodeFast | deps/bzip2/bzlib_private.h:444-456 | following the packed vector gives the byte sequence that the last column and origPtr define, valid transform or not |
| InverseBwt.BuildT | deps/bzip2/decompress.c:526-534 | the small decoder's nibble-packed vector holds each byte's slot, whatever the nibbles held before |
| InverseBwt.ReverseCycle | deps/bzip2/decompress.c:536-545 | pointer reversal turns exactly the cycle through origPtr round and leaves every other entry alone |
| InverseBwt.DecodeSmall | deps/bzip2/bzlib.c:687-698 | following the reversed vector, with the byte found by binary search in the cumulative counts, gives the same bytes as the fast decoder for every last column and origPtr |
| MoveToFront.MoveUp | deps/bzip2/compress.c:189-207 | the encoder's register loop finds the byte's index and moves it to the front of the list |
| MoveToFront.DecodeShort | deps/bzip2/decompress.c:424-440 | with the list in sixteen segments, an index below 16 delivers that entry and moves it to the front of the plain list |
| MoveToFront.DecodeLong | deps/bzip2/decompress.c:441-474 | the same for larger indices, where one entry is carried up from each segment below |
| MtfSymbols.UndoSymbols | deps/bzip2/decompress.c:379-415 | undoing the run and index symbols of any byte sequence gives the sequence back |
| MtfEncoder.GenerateMtfValues | deps/bzip2/compress.c:119-231 | the symbols written are those of the last column, with their frequencies, although they overwrite the sort pointers they are made from |
| HuffmanTables.AssignCodes | deps/bzip2/huffman.c:152-166 | every symbol gets the canonical code of its length |
| HuffmanTables.CreateDecodeTables | deps/bzip2/huffman.c:170-200 | limit, base and perm describe exactly the canonical code |
| HuffmanTables.Decode | deps/bzip2/decompress.c:70-102 | on any input a symbol is delivered exactly if the input starts with its code, and exactly that code is consumed |
| MergeCost.MergeAtLeast | deps/bzip2/huffman.c:96-116 | replacing the two lightest nodes by their sum loses nothing: if every choice of lengths afterwards costs at least c, every choice before costs at least c and their weights |
| CodeLengths.MakeCodeLengths | deps/bzip2/huffman.c:63-148 | for all frequencies with a sum below 2^23 the scaling ends; the lengths satisfy Kraft's equality, are from 1 to maxLen and cost least for the weights of the last round; weights are scaled only after a cheapest code was too long, and not at all below a Fibonacci bound |
| TableChoice.ChooseTables | deps/bzip2/compress.c:265-455 | two tables, and one more for each of 200, 600, 1200 and 2400 that the number of symbols reaches; from the first tables four passes are made, each giving every fifty symbols the first of the tables that are cheapest for them, and then every table a cheapest code for what it was given; at most 18002 selectors |
| TableChoice.InitialTables | deps/bzip2/compress.c:280-319 | the first tables share the symbols in ranges, each the shortest that holds its share of the occurrences left, except that every second but the last leaves the last symbol of a longer range to the next |
| TableChoice.OneCheap | deps/bzip2/compress.c:310-314 | each symbol costs 0 in exactly one of the first tables and 15 in the others |
| SelectorCodes.EncodeSelectors | deps/bzip2/compress.c:463-480 | the numbers written are the move-to-front code of the selectors |
| SelectorCodes.DecodeSelectors | deps/bzip2/decompress.c:302-314 | the decoder's list turns those numbers back into the selectors |
| BitIO.BitWriter.W | deps/bzip2/compress.c:57-78 | the n bits of a number are appended to all those written before, most significant first |
| BitIO.BitReader.GetBits | deps/bzip2/decompress.c:43-62 | the next n bits of the input are delivered as a number and used up, or there are fewer than n and none is |
| BlockEncoder.CompressBlock | deps/bzip2/compress.c:602-666 | the bits appended are those of a sound coding of the block: map, selectors, tables and symbols whose undoing is the block's last column; the map has exactly the bytes that occur, and the tables are those chosen |
| BlockReader.ReadSelectors | deps/bzip2/decompress.c:286-301 | on any input the numbers delivered are below the number of tables and the bits used up are how they are written; on written selectors they are read back |
| SymbolDecoder.ReadSymbols | deps/bzip2/decompress.c:379-481 | on any input no more than the block's limit is stored; on the coded symbols of a sequence the last column and its counts are stored and the input stops right behind them |
| BlockDecoder.ReadHeader | deps/bzip2/decompress.c:215-262 | on any input the checksum and origin delivered are those in the header that was read; on the header of a block they are read back |
| BlockDecoder.ReadBody | deps/bzip2/decompress.c:264-513 | on the bits of a coded block the last column, its cumulative counts and a row that yields the block are delivered |
| RunLength.ExpandPacked | deps/bzip2/bzlib.c:215-251 | expanding the block bytes of any runs gives the data of the runs, and no run of four ends the block without its count |
| BlockBuilder.Builder.AddChar | deps/bzip2/bzlib.c:264-284 | a byte is added to the data in the block or waiting as a run, and no more than five bytes to the block; a run is followed by one of the same byte only when it is full, and exactly the bytes of the block are marked in use |
| BlockCrc.OverIsFed | deps/bzip2/bzlib_private.h:157-172 | the table-driven block checksum is the shift register's |
| BlockCrc.PolyIsTerms | deps/bzip2/crctable.c:31-36 | the polynomial is the sum of the fourteen terms that zlib lists for its own, in the other bit order |
| BlockCrc.CheckValue | deps/bzip2/bzlib_private.h:157-172 | the checksum of the nine digits is the value known for this CRC |
| BlockCrc.CombinedNext | deps/bzip2/compress.c:606-608 | rotating the combined checksum and adding the next block's gives the exclusive or of all block checksums, each rotated left once for every block after it |
| Compressor.Compressor.Compress | deps/bzip2/bzlib.c:407-464 | for any calls and buffers input and output are accounted for; a wrong call changes nothing; another fails exactly if it makes no progress, a flush never; only a flush or finish closes a block that is not full, and only one; while a finish goes on the output is the beginning of a stream; at the end it is a whole stream for exactly the input, whose trailer holds the exclusive or of the block checksums, each rotated left once for every block after it |
| RunOutput.BlockOutput.UnRleFast | deps/bzip2/bzlib.c:589-682 | output in pieces of any size is the data the block still owes, with its checksum |
| RunOutput.BlockOutput.UnRleSmall | deps/bzip2/bzlib.c:761-804 | the same for the small decoder, whose loop looks at the room first |
| RunOutput.SameOwed | deps/bzip2/bzlib.c:705-804 | both decoders owe the same data for the same block |
| Decompressor.Decompressor.Decompress | deps/bzip2/bzlib.c:808-858 | on any input StreamEnd means that the bits are a header, blocks and a trailer, the word in each block's header is the checksum of the data put out for it, and the word in the trailer is their combination; for the blocks of a stream, fast or small, with output buffers of any size, with any words in the places of its checksums, the data up to the first block with a wrong one is put out, and the end is StreamEnd exactly if all are right and DataError otherwise; input is missing only when it is used up |
| Decompressor.Decompressor.OutputStep | deps/bzip2/bzlib.c:820-843 | on any input the next block is gone on to only if the checksum in the header of this one is that of the data put out for it |
| Decompressor.UptoRight | deps/bzip2/bzlib.c:830-831 | how far a stream is put out does not depend on anything but the first wrong checksum |
| BuffToBuff.OneWordWrong | deps/bzip2/bzlib.c:830-831 | a stream with one block's checksum replaced by another word is not genuine, and gives the data up to that block and no more |
| BuffToBuff.BuffToBuffCompress | deps/bzip2/bzlib.c:1247-1295 | bad parameters are refused exactly; otherwise a stream holding the source results, in which only the last block may be less than full, or all of the buffer is used and holds the beginning of one; only an empty source with no room fails |
| BuffToBuff.BuffToBuffDecompress | deps/bzip2/bzlib.c:1299-1348 | on any bytes data is given back only if all checksums in them are right; on a stream the data, or the first bytes of it if there is no room, or a data error if a checksum is wrong; the beginning of a stream ends in an unexpected end, a full buffer or that error, never in success |
| BuffToBuff.RoundTrip | deps/bzip2/bzlib.c:1247-1348 | what has been compressed decompresses to itself, by either decoder |
| ReversedBits.Increment | deps/zlib/inftrees.c:241-251 | the backward increment of a reversed code is the reversed successor, or 0 after the last |
| InflateCodes.LengthsCovered | deps/zlib/inftrees.c:61-66 | by the rule of RFC 1951 each length symbol up to 284 starts where the one before ends and ends at 258, and symbol 285 stands for 258 alone |
| InflateCodes.DistancesCovered | deps/zlib/inftrees.c:67-74 | by the same rule each distance symbol starts where the one before ends, from 1 up to 32768 |
| InflateCodes.LengthRow | deps/zlib/inftrees.c:61-66 | the rows for lengths are those of the rule: groups of four symbols with one extra bit more each, and 258 without any for symbol 285 |
| InflateCodes.DistRow | deps/zlib/inftrees.c:67-74 | the rows for distances are those of the rule: pairs with one extra bit more each |
| InflateBlock.LongestForms | deps/zlib/inftrees.c:61-66 | 258 bytes are written as symbol 285 without extra bits, or as 284 with all five set, and in no other way |
| InflateTable.InflateTable | deps/zlib/inftrees.c:32-306 | -1 exactly for over-subscribed sets and for incomplete ones other than a single bit; 1 exactly if the root table and one table for each index of longer codes, as large as the longest of them needs, take 852 or 592 entries or more; after 0 that many are used and every code is found in the root table or by one link; no codes give two invalid entries |
| InflateTable.TablesDecode | deps/zlib/inftrees.c:183-289 | after 0 a bit buffer that starts with the canonical code of s is looked up as s and exactly the length of its code |
| InflateTable.EveryBufferDecodes | deps/zlib/inftrees.c:136-151 | with a complete set every bit buffer starts with some code, so no reachable slot is left unfilled |
| InflateDecode.ReadSymbol | deps/zlib/inflate.c:1026-1044 | with as few bits at hand as the loop allows, the symbol whose code the stream starts with is found, exactly its code is dropped, and at most 32 bits are held; on any bits the entry is that of the symbol whose code comes, or the mark for no code where no code starts, and there is none only where the bits end before a code is whole |
| InflateBlock.ReadBlock | deps/zlib/inflate.c:1018-1120 | on the codes and extra bits of a list of tokens the tokens are those, by the rule of RFC 1951, and what follows the block is left; and on any bits, what is taken for a block is such a list, bits are missing only where they end within a token, and an error only where a symbol of no meaning comes |
| InflateBlock.MakeTables | deps/zlib/inflate.c:992-1014 | both tables stand in one array, the first untouched by the second; the result says exactly which set is refused or too large |
| InflateBlock.Inflated | deps/zlib/inflate.c:1018-1170 | bits of a block become the data its tokens tell |
| InflateBlock.PieceFor | deps/zlib/inftrees.c:61-74 | every match of 3 to 258 bytes at a distance of 1 to 32768 has symbols and extra bits that stand for it |
| InflateWindow.CopyBackAt | deps/zlib/inflate.c:1146-1166 | each byte of a copied match equals the one its distance before it, overlapping or not |
| InflateWindow.Inflate.UpdateWindow | deps/zlib/inflate.c:378-426 | the circular window always holds the last bytes of all output |
| InflateWindow.Inflate.MatchStep | deps/zlib/inflate.c:1122-1166 | a round of the MATCH state copies from the window or the output what copying back gives; an error exactly if the distance reaches before both |
| InflateWindow.Inflate.FastMatch | deps/zlib/inffast.c:186-281 | inflate_fast's copies out of the window, its end and start, and the output amount to the same |
| InflateWindow.Inflate.Call | deps/zlib/inflate.c:1018-1251 | for every cut of tokens and output into calls a legal stream gives the same output; any stream played to its end reaches back no further than its own output |
| DeflateHash.Forgets | deps/zlib/deflate.c:160-167 | after three updates nothing of an older hash value is left, for every hash size |
| DeflateHash.LastByte | deps/zlib/deflate.c:1214-1219 | with at least eight hash bits, the hash and two bytes determine the third |
| DeflateChains.Insert | deps/zlib/deflate.c:178-190 | INSERT_STRING keeps every chain a list of earlier strings with one hash |
| DeflateChains.Follow | deps/zlib/deflate.c:1282-1283 | a link read within the window's size is the string's own, however often its cell has been written |
| DeflateChains.Slide | deps/zlib/deflate.c:1417-1453 | sliding the window and both tables keeps every chain |
| DeflateMatch.ThirdByte | deps/zlib/deflate.c:1246-1253 | the byte that longest_match never compares is equal |
| DeflateMatch.LongestMatch | deps/zlib/deflate.c:1146-1287 | a length above the previous one is that of an equal string, at most MAX_DIST back, at most 258 and the lookahead; no candidate on the chain agrees on more, unless the search ended because enough were seen, one was good enough, or the chain left the reach; of candidates as long the first is taken if it is the head |
| DeflateSteps.HeadForIs | deps/zlib/deflate.c:178-190 | the head of a chain is the latest string inserted with its hash, if that agrees with the current one and is in the window |
| DeflateSteps.NewestSlid | deps/zlib/deflate.c:1417-1453 | sliding the window keeps the latest string of every hash at the head of its chain |
| DeflateSteps.FastRule | deps/zlib/deflate.c:1656-1711 | a step of deflate_fast that searches when the head of the chain is within reach tells a match at least as long as the head agrees |
| DeflateSteps.SlowRule | deps/zlib/deflate.c:1755-1782 | a search of deflate_slow finds at least what the head of the chain agrees on, except what is too short for the strategy or too far for three bytes |
| Deflate.Deflater.FillWindow | deps/zlib/deflate.c:1388-1530 | no input is lost, all positions keep their place in it, and there is room for a search afterwards |
| Deflate.Deflater.InsertString | deps/zlib/deflate.c:178-190 | the string heads its chain and links to the one that did, nothing else changes, and what it returns is the head before |
| Deflate.Deflater.FastStep | deps/zlib/deflate.c:1643-1712 | if the head of the chain is within MAX_DIST and agrees on three bytes or more, what is tallied is a match at least as long, up to 258 and the lookahead; the string is inserted, and with it the rest of a match up to max_lazy |
| Deflate.Deflater.SlowStep | deps/zlib/deflate.c:1745-1829 | a match found at the step before is tallied exactly if this step finds none longer, with its length and distance; otherwise its first byte is a literal; a search is made unless the match before is as long as max_lazy, and finds at least what the head of the chain agrees on, save matches of up to five bytes when filtered and of three bytes further than 4096 |
| Deflate.Deflater.RleStep | deps/zlib/deflate.c:1876-1916 | a match at distance one is tallied exactly if the byte before comes three times more, and as long as it comes, up to 258 and the lookahead |
| Deflate.HashSizes | deps/zlib/deflate.c:288-291 | the hash table has 2 to the memory level plus 7 entries, and a byte shifts the hash by a third of its bits, rounded up |
| Deflate.RanksInOrder | deps/zlib/deflate.c:158-159 | the ranks order the flushes from none over block, partial, sync and full to finish |
| Deflate.Deflater.FlushBlockOnly | deps/zlib/deflate.c:1536-1545 | while the block began in the window, its bytes there are those its tokens tell |
| Deflate.Deflater.DeflateFast | deps/zlib/deflate.c:1626-1720 | what is tallied tells the input exactly, each token from a step that keeps the rule of FastStep; a return other than need_more has told and flushed all of it; without a flush only full blocks are flushed |
| Deflate.Deflater.DeflateSlow | deps/zlib/deflate.c:1728-1851 | the same with lazy matches, by the rule of SlowStep |
| Deflate.Deflater.DeflateRle | deps/zlib/deflate.c:1859-1926 | the same with runs, by the rule of RleStep |
| Deflate.Deflater.DeflateHuff | deps/zlib/deflate.c:1932-1965 | the same with literals only |
| Deflate.Deflater.Deflate | deps/zlib/deflate.c:663-974 | at every moment the tokens tell a prefix of the input exactly, distances stay within MAX_DIST, and every token comes from a step that keeps its matcher's rule, with a hash table that loses nothing but by a full flush; flushed blocks stay; at the end all input is told; with ample room for output a finish ends the stream, another flush tells all input, no flush leaves at most 262 bytes untold, and only calls the code calls useless are refused |
| DeflateTokens.CopyIsData | deps/zlib/deflate.c:1656-1660 | where the input repeats itself, a match stands for what follows |
| DeflateInflate.RoundTrip | deps/zlib/inflate.c:1018-1251 | what deflate tallies at any level, strategy and window size inflates to the source |
| Crc32.MakeCrcTable | deps/zlib/crc32.c:83-141 | the eight tables hold each byte value followed by none to three zero bytes, and the same with bytes reversed |
| Crc32.FourAtOnce | deps/zlib/crc32.c:239-243 | four bytes can be fed by adding them as a word and shifting by 32 |
| Crc32.Crc32Little | deps/zlib/crc32.c:246-278 | for every alignment, length and start value the result is the shift register's |
| Crc32.Crc32Big | deps/zlib/crc32.c:288-320 | the same in a register with its bytes reversed |
| Crc32.Crc32 | deps/zlib/crc32.c:205-236 | a null buffer gives 0; otherwise the result is the shift register's, whichever loop is used |
| Crc32.CheckValue | deps/zlib/crc32.c:205-236 | the checksum of the nine digits is the value known for this CRC |
| Crc32Combine.Times | deps/zlib/crc32.c:327-341 | the loop stops early but computes the whole product |
| Crc32Combine.SquareTwice | deps/zlib/crc32.c:344-352 | the square of a matrix applies it twice |
| Crc32Combine.Combine | deps/zlib/crc32.c:355-408 | the first checksum is shifted past len2 zero bytes and the second added |
| Crc32Combine.CombinedConcat | deps/zlib/crc32.c:355-408 | combining the checksums of two pieces gives the checksum of one after the other |
| Adler32.NmaxFits | deps/zlib/adler32.c:14-17 | NMAX bytes never overflow 32 bits, whatever the halves were before; one more could |
| Adler32.BaseIsPrime | deps/zlib/adler32.c:14 | the modulus is the largest prime below 65536 |
| Adler32.Chop | deps/zlib/adler32.c:32-37 | folding the high half fifteen times keeps the remainder |
| Adler32.Mod63 | deps/zlib/adler32.c:48-58 | the reduction by shifts is the remainder for all numbers below 2^63 |
| Adler32.Adler32 | deps/zlib/adler32.c:65-133 | no sum wraps, and the result is the definition's for every buffer and starting value, except after a single byte exactly if the high half cannot be reduced by one subtraction |
| Adler32.OneByteFails | deps/zlib/adler32.c:78-85 | a starting value and a byte for which it is not |
| Adler32.ReducedOnes | deps/zlib/adler32.c:78-85 | for every reduced starting value it is |
| Adler32.Combine | deps/zlib/adler32.c:136-162 | for every two reduced checksums and every length the sums come out reduced and as the formula says; a negative length gives all ones |
| Adler32.CombinedConcat | deps/zlib/adler32.c:136-162 | combining the checksums of two pieces gives the checksum of one after the other |

## Left out

- Randomised bzip2 blocks: the compressor never writes them. Decompressor.Decompressor ends with an error
  where the decompressor would undo the randomisation.
- Decompressor.Decompressor.Decompress: takes all its input at the start; that BZ2_decompress can stop for more
  input in the middle of any field, and saves its locals when it does, is not modelled: an input that ends early is at
  an end. Output may be cut anywhere. On input that is not a compressor's, what the bits between a block's header and
  its end stand for is not stated, only that the data put out has the checksum in the header.
- BlockReader.ReadSelectors: the arrays are as long as the number of selectors announced, where the source's hold
  18002; the compressor never announces more (TableChoice.ChooseTables).
- After an error the model's decompressor is idle, where the source stays in the state it was in.
- BlockEncoder.CompressBlock: its work arrays are fresh for each block; that arr2, ftab, quadrant and the
  header bits share or reuse memory is modelled only where a method is given the arrays.
- FallbackSort.Sort: the bytes and the classes kept in one array are modelled as one array of numbers, a byte
  first and a class later, not as overlapping memory.
- Loops unrolled in the source are loops of the same steps.
- Verbosity, memory allocation and its failure, file access and the 16-bit branches.
- BlockCrc.TableEntry: the 256 literals of the table are not written out; an entry is what its index shifts to.
- InflateBlock.ReadBlock: the loop of inflate that reads codes; inflate_fast reads the same codes with its own
  refills of the bit buffer, and is modelled from the tokens on (InflateWindow.Inflate.FastMatch).
- Headers and trailers of zlib and gzip, stored blocks, the code length codes that carry a dynamic block's lengths, and
  inflate's suspension in the middle of a token.
- What trees.c does with a block of tokens: it is not part of this model, and so neither are the bits that deflate
  writes. Deflate.Deflater.Deflate leaves open when the output buffer is full, unless the caller says it is ample.
- Level 0 of deflate (deflate_stored), preset dictionaries, deflateParams, deflateTune and deflateCopy, and the
  compile-time variants FASTEST and UNALIGNED_OK.
- Crc32.Crc32: the checksum is a 32-bit word; the bits above that of a wider unsigned long are not modelled.
- Adler32.Adler32: a null buffer with a length of one, which the source reads.
- Adler32.Combine: requires reduced checksums, as adler32 returns them for reduced starting values.
