# Verified models of Datamime's benchmark code

Dafny models, with proofs, of the code in this repository that carries real algorithmic
weight. `dafny verify dfyconfig.toml` checks everything.

| files | what they model |
|---|---|
| `Basics`, `Bits` | shared facts; bytes, bit strings and C's unsigned operators |
| `Inflate`, `DeflateSpec` | a zlib decoder after RFC 1950 and RFC 1951 (fixed and stored blocks), and the codes a compressor may send |
| `BitWriter`, `Matching`, `Adler`, `Deflate` | the zlib compressor: growable buffer, bit packer, hash-chain matcher with lazy matching, fixed codes, stored fallback, Adler-32 |
| `Png` | scanline filters, their selection, and filtering composed with compression |
| `Tga`, `Hdr` | the two run-length coders, with the 64-byte write buffer of the first |
| `JpegTables`, `JpegSpec`, `Jpeg` | the entropy coder, its Huffman tables against the tables sent in the file, and a decoder after ITU-T T.81 |
| `UcpSpec`, `Ucp`, `CosRepair` | the utility-based cache partitioner and the repair for buckets 10 and 11 |
| `Resize` | the ring of scanlines when enlarging and when reducing |
| `Arenas` | the per-CPU arena allocator, its callers and their interleavings |
| `Harness` | the integrated load harness as a machine of T threads |
| `Bst` | the parent-linked tree of the microbenchmark |
| `CoreBlocks` | the lock-free block allocator as interleaved loads and exchanges |

Code that updates state in place is modelled by classes and methods with the source's loops;
each is proved against a specification function, and the properties are proved about those
functions. The decoders are written from the published formats, not from the encoders, so
"decode after encode is the identity" relates two independent definitions.

`Arenas`, `Harness` and `CoreBlocks` are state machines: an action is what the source does
under one lock, at one clock reading, or in one atomic operation; a run is any sequence of
actions of any threads. The classes beside them execute the same actions, and their contracts
say so.

Four promises turn out to hold only under a condition, which is proved to be exact:

- With no input bytes the compressor emits a stream that no decoder accepts: `Deflate.Compress`
  decodes to the data if and only if there is at least one byte.
- `get_maxmarginalutil_ipcs` finds the greatest gain unless it is 1000, the value that stands
  for "unset", and the last candidate's is not: `Ucp.MaxMarginalUtilIpcs`, `Ucp.UnsetCollides`.
  The twin for miss curves is never affected.
- `verify_intel_cos_issue` goes on to use partition -1 if and only if exactly one of buckets 10
  and 11 is handed out and some partition holds two: `CosRepair.VerifyIntelCosIssue`.
- `allocate_contiguous_aligned_block` adds in 32 bits. A call (n, alignment) is harmless when
  n plus the limit rounded up stays below 2^32, or when the alignment exceeds the limit and
  n + alignment exceeds 2^32 plus the limit, so that the call is refused. Every run is right
  exactly when only harmless calls are made: `CoreBlocks.RightExactlyWhenHarmless`.

The harness takes no sample at all when `warmupReqs` is 0, since the count is compared with it
only after being incremented; `Harness.SamplesAtDump` covers both cases
(`Harness.NoSampleWithoutWarmup` is such a run), and its bound of one sample per other thread is
reached with two threads (`Harness.OneTooFew`, `Harness.OneTooMany`).

## Model

| member | source | states |
|---|---|---|
| `BitWriters.ByteBuffer.Push` | apps/dnn/stb_image_write.h:818-822 | appends one byte after the old contents; the count stays below the capacity, and the same storage is kept unless the push would fill it |
| `BitWriters.ByteBuffer.Grow` | apps/dnn/stb_image_write.h:826-837 | new storage of two slots at first and 2m + 1 after, with the same contents and room for the next push |
| `BitWriters.BitWriter.Flush` | apps/dnn/stb_image_write.h:839-847 | whole bytes leave the bit buffer with no bit lost, added or moved; fewer than 8 stay pending and the buffer is below 2^count |
| `BitWriters.BitWriter.Add` | apps/dnn/stb_image_write.h:880-881 | the bits written grow by exactly the code's low bits, least significant first; the 32-bit buffer never loses a bit |
| `BitWriters.AddFits` | apps/dnn/stb_image_write.h:880-881 | OR-ing a shifted code onto fewer than 8 pending bits is concatenation, and the sum stays inside 32 bits |
| `BitWriters.ShiftFits` | apps/dnn/stb_image_write.h:880-881 | the 32-bit shift of a code above fewer than 8 pending bits drops nothing |
| `Deflate.TablesAgree` | apps/dnn/stb_image_write.h:901-904 | the four tables equal those of section 3.2.5 of RFC 1951, plus one stop entry past the last class |
| `Deflate.BitRev` | apps/dnn/stb_image_write.h:849-857 | the least-significant-first bits of the result are the most-significant-first bits of the code |
| `Deflate.HuffA` | apps/dnn/stb_image_write.h:882 | the code goes out most significant bit first, whatever precedes it |
| `Deflate.Huff` | apps/dnn/stb_image_write.h:884-889 | for every literal/length symbol the four range macros send the fixed code of section 3.2.6 of RFC 1951 |
| `DeflateSpec.SymbolRoundTrip` | apps/dnn/stb_image_write.h:884-888 | the fixed code is instantaneous: each symbol is read back whatever bits follow |
| `Deflate.PutLength` | apps/dnn/stb_image_write.h:960-962 | the linear search ends at the last length class not above the length; symbol and extra bits are those of that class |
| `Deflate.PutDist` | apps/dnn/stb_image_write.h:963-965 | likewise for distances, whose 5-bit code goes out reversed |
| `DeflateSpec.MatchRoundTrip` | apps/dnn/stb_image_write.h:960-965 | every length 3..258 and distance 1..32767 is read back from its code, extra bits included, whatever follows |
| `Matching.MatchLenExact` | apps/dnn/stb_image_write.h:859-865 | the match length is exact: all bytes before it agree, and the next pair differs unless 258 or the end of data was reached |
| `Matching.Countm` | apps/dnn/stb_image_write.h:859-865 | the loop returns that length for any two positions, within 258 and the limit |
| `Matching.SameBytesSameBucket` | apps/dnn/stb_image_write.h:867-877 | the bucket depends on the three bytes alone: a recurrence of them is looked up where the earlier one was recorded |
| `Matching.Longest` | apps/dnn/stb_image_write.h:928-933 | the scan returns an in-window candidate that no other is longer than, and none only when all are shorter than 3 |
| `Matching.NextIsBetter` | apps/dnn/stb_image_write.h:943-953 | true exactly when some in-window candidate for the next byte is longer |
| `Matching.Insert` | apps/dnn/stb_image_write.h:934-939 | the chain gains i at its end; a full one (2 * quality) first drops its older half; no other chain changes |
| `Matching.FindMatch` | apps/dnn/stb_image_write.h:924-955 | i is pushed on the chain of its three bytes and no other chain changes; a match sent lies within the window, is the last of the longest in its chain and no match at the next byte beats it, and a literal is sent only when every candidate is shorter than 3 or beaten |
| `Matching.HistoryMore` | apps/dnn/stb_image_write.h:934-939 | recording a position keeps every chain equal to what pushing the earlier token starts of its bucket, in order, gives |
| `DeflateSpec.CopyRecurring` | apps/dnn/stb_image_write.h:958-966 | copying recurring text extends the decoded prefix by it, even where source and target overlap |
| `Deflate.CoversMatch` | apps/dnn/stb_image_write.h:958-966 | a full-length match extends what the tokens stand for by exactly its bytes |
| `Deflate.PutToken` | apps/dnn/stb_image_write.h:924-970 | one round writes the code of the one token the search sends here, given the earlier token starts, and records its start; matches are as long as the text recurs |
| `Deflate.PutTokens` | apps/dnn/stb_image_write.h:921-974 | the loop ends with tokens that stand for all of data, each the one the search sends at the effort, and with their codes written in order |
| `Deflate.SentHere` | apps/dnn/stb_image_write.h:924-970 | the token the matcher sends is the one that the recorded histories alone determine, before and after i is recorded |
| `DeflateSpec.FixedBlockRoundTrip` | apps/dnn/stb_image_write.h:915-975 | decoding a fixed block gives the expansion of its tokens |
| `Deflate.Finish` | apps/dnn/stb_image_write.h:975-978 | the end-of-block symbol and fewer than 8 bits, all zero, follow; the bit count is 0 |
| `Deflate.StoreBlock` | apps/dnn/stb_image_write.h:988-997 | LEN, its complement and a raw copy of the next at most 32767 bytes; the copy stays inside capacity already held |
| `Deflate.StoreRaw` | apps/dnn/stb_image_write.h:985-999 | everything after the two header bytes is replaced by stored blocks that tile the data |
| `DeflateSpec.StoredRoundTrip` | apps/dnn/stb_image_write.h:987-998 | stored blocks decode to the data they were cut from |
| `DeflateSpec.StoredBytesSize` | apps/dnn/stb_image_write.h:985-999 | their size is the data plus five bytes for every 32767 begun |
| `Adler.NoWrap` | apps/dnn/stb_image_write.h:1003-1008 | 5552 additions to reduced sums stay below 2^32 in both accumulators |
| `Adler.AddBlock` | apps/dnn/stb_image_write.h:1007-1008 | one block advances both sums as the per-byte definition does, with no wrap on the way |
| `Adler.Sums` | apps/dnn/stb_image_write.h:1003-1011 | a first block of length mod 5552, then blocks of 5552, end with the per-byte Adler-32 sums of section 8.2 of RFC 1950 |
| `Deflate.Compress` | apps/dnn/stb_image_write.h:895-1019 | for every input and quality: zlib decoding the stream gives the data back (for empty data it fails); the parse is the one the search makes at an effort of at least 5; fill bits are zero; stored form used exactly when the fixed form is larger; size at most n + 2 + 5 * ceil(n / 32767) + 4 |
| `DeflateSpec.FixedStreamRoundTrip` | apps/dnn/stb_image_write.h:913-1015 | header, padded fixed block and checksum together decode to the data |
| `DeflateSpec.StoredStreamRoundTrip` | apps/dnn/stb_image_write.h:985-1015 | header, stored blocks and checksum together decode to the data |
| `DeflateSpec.EmptyStreamIsMalformed` | apps/dnn/stb_image_write.h:985-999 | with no data the fallback emits no block at all, and no decoder can accept the stream |
| `Deflate.EmptyIsStored` | apps/dnn/stb_image_write.h:975-985 | for empty data the fallback is always taken: any fixed form is larger than no stored block at all |
| `Png.PaethNearest` | apps/dnn/stb_image_write.h:1083-1089 | the predictor is the neighbour nearest to a + b - c, ties going to left, then above |
| `Png.UnfilterFiltered` | apps/dnn/stb_image_write.h:1117-1124 | undoing each of the five filters of section 6 of RFC 2083 restores any row from any prior row |
| `Png.RowAbove` | apps/dnn/stb_image_write.h:1099-1100 | z[i - signed_stride] is the byte above in output order, for either vertical orientation and any stride |
| `Png.CellIsResidue` | apps/dnn/stb_image_write.h:1107-1125 | with the first-row mapping, each byte computed is the filter's residue against a zero prior row on line 0 |
| `Png.EncodeByte` | apps/dnn/stb_image_write.h:1107-1125 | one byte of the line from in-bounds reads only, equal to the residue |
| `Png.EncodeLine` | apps/dnn/stb_image_write.h:1092-1126 | the line is the filtered row of the image for every row, filter and flip and every stride, negative ones from a pointer inside the memory included |
| `Png.Estimate` | apps/dnn/stb_image_write.h:1157-1160 | the sum of absolute values of the line as signed bytes |
| `Png.FilterRow` | apps/dnn/stb_image_write.h:1146-1170 | forced: that filter; automatic: the first of the five with the least sum, and the line left behind is that filter's |
| `Png.FilterImage` | apps/dnn/stb_image_write.h:1144-1174 | the filtered image reads back as the image's rows under section 6 of RFC 2083, each row with the filter promised for it |
| `Png.ReconEncoded` | apps/dnn/stb_image_write.h:1144-1174 | reading filter types and lines row by row restores all rows |
| `Png.ImageData` | apps/dnn/stb_image_write.h:1137-1176 | filtering then compressing loses nothing: inflating and unfiltering gives the rows, with the size bound, for every image with a row; each row has the filter promised for it, and the compressor's parse is made at the given level; a stride of 0 stands for packed rows |
| `Tga.WriteContext.Flush` | apps/dnn/stb_image_write.h:386-392 | the callback has received everything written; nothing is lost or repeated |
| `Tga.WriteContext.Write1` | apps/dnn/stb_image_write.h:399-404 | one byte more is written, across flushes of the 64-byte buffer |
| `Tga.WriteContext.Write3` | apps/dnn/stb_image_write.h:406-416 | three bytes more are written in order, across flushes |
| `Tga.WriteContext.WritePixel` | apps/dnn/stb_image_write.h:418-449 | a pixel goes out as mono, mono+alpha, BGR or BGRA |
| `Tga.StoredTwice` | apps/dnn/stb_image_write.h:428-446 | the file's component order undoes itself |
| `Tga.Scan` | apps/dnn/stb_image_write.h:563-591 | the packet is 1..128 pixels inside the row, a run exactly when the next pixel exists and is equal, and its length is exact: a run goes on to the first other pixel, a raw packet stops before a pixel equal to the one two before it and gives one pixel back |
| `Tga.WritePacket` | apps/dnn/stb_image_write.h:593-603 | header and pixels are those of the run or raw packet; the truncated header of a run is len + 127 |
| `Tga.ReadPacket` | apps/dnn/stb_image_write.h:593-603 | a decoder consumes exactly the packet and gains exactly its pixels |
| `Tga.WriteRow` | apps/dnn/stb_image_write.h:563-604 | the bytes written are the code of packets of 1..128 pixels that tile the row, none crossing its end, each the one the scan takes where it stands |
| `Tga.ReadPackets` | apps/dnn/stb_image_write.h:563-604 | decoding the code of packets gives their pixels, whatever follows |
| `Tga.WritePicture` | apps/dnn/stb_image_write.h:550-606 | for every picture, size of pixel and flip: the callback has all bytes, they are the codings of the rows in file order, and decoding them gives those rows |
| `Hdr.RunData` | apps/dnn/stb_image_write.h:656-662 | whatever was read before and follows, a reader takes the two bytes as len copies of the byte |
| `Hdr.DumpData` | apps/dnn/stb_image_write.h:664-670 | whatever was read before and follows, a reader takes the bytes as the data itself |
| `Hdr.FindRun` | apps/dnn/stb_image_write.h:727-735 | the first position at or after x where three equal bytes start, or the end of the plane |
| `Hdr.RunEnd` | apps/dnn/stb_image_write.h:745-747 | the end of the maximal run that starts at x |
| `Hdr.DumpUpTo` | apps/dnn/stb_image_write.h:736-742 | dumps of at most 128 bytes tile the plane up to the run |
| `Hdr.RunUpTo` | apps/dnn/stb_image_write.h:748-754 | runs of at most 127 tile the equal bytes |
| `Hdr.ReadPackets` | apps/dnn/stb_image_write.h:656-670 | reading the code of packets gives their bytes |
| `Hdr.WritePlane` | apps/dnn/stb_image_write.h:725-756 | packets within the format's lengths tile the plane, and reading gives it back whatever follows; runs are coded only inside maximal runs of three or more and dumps never start or cross one; lengths are the longest allowed |
| `Hdr.FillScratch` | apps/dnn/stb_image_write.h:701-717 | the four planes of the scratch buffer are the pixels' components |
| `Hdr.WriteScanline` | apps/dnn/stb_image_write.h:672-759 | reading a scanline of any width gives its pixels back: header and four planes, each coded as promised for a plane, from 8 to 32767, flat otherwise |
| `JpegTables.Generated` | apps/dnn/stb_image_write.h:1400-1424 | codes and symbol positions follow from the code counts as Annex C of ITU-T T.81 generates them |
| `JpegSpec.CodeFits` | apps/dnn/stb_image_write.h:1400-1424 | no length has more codes than fit: every placed code is below two to the power of its length |
| `JpegTables.EncoderTableMatchesDht` | apps/dnn/stb_image_write.h:1425-1470 | every entry of the encoder's four tables is the code that the DHT counts and values generate for its symbol |
| `JpegTables.DcSizesCoded` | apps/dnn/stb_image_write.h:1425-1426 | every DC size class up to 11 has a code |
| `JpegTables.AcSizesCoded` | apps/dnn/stb_image_write.h:1427-1470 | every run up to 15 with a size class up to 10 has a code, and so have EOB and the run of sixteen |
| `JpegSpec.MinCodeGrows` | apps/dnn/stb_image_write.h:1400-1424 | codes of one length stay below the prefixes of longer ones |
| `JpegSpec.DecodeCode` | apps/dnn/stb_image_write.h:1425-1470 | DECODE of section F.2.2.3 of ITU-T T.81 reads each coded symbol back whatever follows |
| `JpegSpec.ExtendMagnitude` | apps/dnn/stb_image_write.h:1318-1326 | EXTEND of section F.2.2.1 inverts the magnitude bits of every nonzero value |
| `Jpeg.CalcBits` | apps/dnn/stb_image_write.h:1318-1326 | for every nonzero value: its size class and its magnitude bits |
| `Jpeg.TopByte` | apps/dnn/stb_image_write.h:1258 | bits 16..23 of the buffer are the first eight pending bits |
| `Jpeg.ShiftOut` | apps/dnn/stb_image_write.h:1263 | the left shift drops exactly the byte sent, though old bits remain above the window |
| `Jpeg.JpegWriter.SendByte` | apps/dnn/stb_image_write.h:1257-1265 | one byte leaves the buffer, followed by 0 after 0xFF; the bits written do not change |
| `Jpeg.JpegWriter.AddBits` | apps/dnn/stb_image_write.h:1255-1256 | the code joins the pending bits on the right |
| `Jpeg.JpegWriter.WriteBits` | apps/dnn/stb_image_write.h:1253-1268 | the bits written grow by exactly the code, most significant first; fewer than 8 stay pending |
| `Jpeg.UnstuffStuff` | apps/dnn/stb_image_write.h:1259-1262 | dropping the stuffed zeros restores the coded bytes, whatever follows |
| `Jpeg.StuffedIsMarkerFree` | apps/dnn/stb_image_write.h:1259-1262 | every 0xFF sent is followed by 0x00 |
| `Jpeg.WriteDc` | apps/dnn/stb_image_write.h:1355-1364 | the DC difference is written as its size-class code and magnitude bits, or the code of class 0 |
| `Jpeg.WriteZrls` | apps/dnn/stb_image_write.h:1381-1387 | one run-of-sixteen code for every sixteen zeros |
| `Jpeg.WriteRun` | apps/dnn/stb_image_write.h:1375-1390 | zeros up to the next nonzero coefficient, then the coefficient |
| `Jpeg.WriteAc` | apps/dnn/stb_image_write.h:1365-1394 | all 63 AC coefficients, with the end of block left out exactly when the last is nonzero |
| `Jpeg.ProcessDU` | apps/dnn/stb_image_write.h:1355-1395 | a block's bits are those of the reference coding, and the next prediction is its DC value |
| `JpegSpec.AcRoundTrip` | apps/dnn/stb_image_write.h:1365-1394 | decoding AC bits restores the coefficients: runs over 15, end of block and a nonzero last one included |
| `JpegSpec.BlockRoundTrip` | apps/dnn/stb_image_write.h:1355-1395 | decoding a block restores all 64 coefficients from any prediction, whatever follows |
| `Jpeg.ScanRoundTrip` | apps/dnn/stb_image_write.h:1548-1592 | decoding all blocks with the tables the headers select, three predictions carried along, restores them |
| `Jpeg.SelectorsAgree` | apps/dnn/stb_image_write.h:1500-1518 | the tables the encoder uses for a component are those that the scan header's selectors and the ids of the tables sent announce to a reader |
| `Jpeg.UnitsInOrder` | apps/dnn/stb_image_write.h:1533-1593 | the blocks come in the order that the frame header's sampling factors prescribe (section A.2.3 of ITU-T T.81): four luminance blocks, or one, then the other two |
| `JpegSpec.StandardTablesAreComplete` | apps/dnn/stb_image_write.h:1400-1470 | the four standard tables code every symbol the encoder can send |
| `Jpeg.EncodeScan` | apps/dnn/stb_image_write.h:1524-1598 | for every sequence of blocks that fit the size classes: un-stuffing and decoding with the tables the headers select restores them; no marker in coded data; fewer than 8 fill bits, all one |
| `Jpeg.EncodeImage` | apps/dnn/stb_image_write.h:1523-1598 | a reader that knows the headers and the number of MCUs recovers every block of the image in its place, subsampled or not |
| `UcpSpec.SmoothIsPrefixMin` | profiler/cache_utils.cpp:91-103 | smoothing takes the least value so far: the largest non-increasing curve below the given one |
| `UcpSpec.SmoothConvex` | profiler/cache_utils.cpp:91-103 | smoothing keeps a convex curve convex |
| `UcpSpec.SmoothIdentity` | profiler/cache_utils.cpp:91-103 | and leaves a non-increasing curve alone |
| `Ucp.SmoothenMRCs` | profiler/cache_utils.cpp:91-103 | every column of the matrix becomes its smoothed curve, in place |
| `Ucp.MaxMarginalUtilMrcs` | profiler/cache_utils.cpp:74-89 | on a non-increasing curve the result is the least average slope over 1..parts ways and the fewest ways reaching it: the unset value 1000 never collides |
| `Ucp.MaxMarginalUtilIpcs` | profiler/cache_utils.cpp:105-123 | the result is the greatest gain if and only if the greatest gain is not 1000 or the last candidate's gain is 1000; the fewest ways reach it, after a collision the best of the candidates behind it, or the last candidate is returned |
| `Ucp.GainScales` | profiler/cache_utils.cpp:105-114 | gains do not depend on the unit of the IPC, and in units of the IPC with three ways they are plain average slopes |
| `Ucp.UnsetCollides` | profiler/cache_utils.cpp:105-123 | a rising curve on which the collision with 1000 keeps the worse candidate |
| `Ucp.GiveFirst` | profiler/cache_utils.cpp:233-240 | bucket a goes to application a, one each; the rest stay on the stack |
| `Ucp.PickRound` | profiler/cache_utils.cpp:243-264 | the round chosen has the least slope over all applications and all remaining ways, the first application and the fewest ways among equals |
| `Ucp.GiveRound` | profiler/cache_utils.cpp:266-269 | the chosen application gains exactly that many buckets, the next ones from the top of the stack |
| `Ucp.PlayRound` | profiler/cache_utils.cpp:242-271 | one iteration: at least one and at most the remaining buckets move, and every curve index used exists |
| `Ucp.DoUcpMrcs` | profiler/cache_utils.cpp:225-271 | the rounds are those of the greedy rule on the smoothed curves; buckets go out in order, first one to every application and then round by round, until all are handed out; on convex curves no allocation has a smaller total |
| `Ucp.OwnedExactly` | profiler/cache_utils.cpp:233-269 | each bucket is in its owner's partition exactly once and in no other: disjoint and covering |
| `UcpSpec.RoundsNonDecreasing` | profiler/cache_utils.cpp:242-271 | for arbitrary curves the chosen slope never decreases from one round to the next |
| `UcpSpec.RoundsSorted` | profiler/cache_utils.cpp:242-271 | nor between any two rounds |
| `UcpSpec.AllocSum` | profiler/cache_utils.cpp:232-271 | the allocation after any rounds sums to one way per application plus the ways the rounds gave: none is lost |
| `UcpSpec.FirstIsLeast` | profiler/cache_utils.cpp:74-89 | on a convex curve the first further way has the least average slope |
| `UcpSpec.GreedyThreshold` | profiler/cache_utils.cpp:242-271 | the last chosen slope separates the ways bought from those not bought |
| `UcpSpec.TotalTangent` | profiler/cache_utils.cpp:242-271 | moving any ways between applications away from that threshold cannot lower the total |
| `UcpSpec.GreedyIsOptimal` | profiler/cache_utils.cpp:242-271 | on convex curves the greedy allocation has the least total of all allocations of the same ways |
| `Ucp.UcpIsOptimal` | profiler/cache_utils.cpp:225-271 | on convex miss curves no other allocation with at least one way each has a smaller total of smoothed misses |
| `CosRepair.FindBucket` | profiler/cache_utils.cpp:610-624 | a partition holding the bucket, or -1 when there is none |
| `CosRepair.TakeOther` | profiler/cache_utils.cpp:633-647 | the partition loses exactly one bucket, the one nearest the top that is not the mark, and what is left is turned round |
| `CosRepair.DropMark` | profiler/cache_utils.cpp:649-659 | the partition loses exactly the mark, and what is left is turned round |
| `CosRepair.Trade` | profiler/cache_utils.cpp:632-660 | the bucket nearest the top that is not the mark and the wanted bucket of the other partition change places, both landing on top; no other partition changes |
| `CosRepair.TradeKeeps` | profiler/cache_utils.cpp:632-690 | a trade keeps how often every bucket occurs, every size and disjointness |
| `CosRepair.BothSingle` | profiler/cache_utils.cpp:691-718 | with both alone: the first partition with two takes both on top, and its two top buckets take their places; every bucket occurs as often as before and every size is kept; with one missing it goes wrong exactly when a partition holds two |
| `CosRepair.VerifyIntelCosIssue` | profiler/cache_utils.cpp:602-721 | it uses partition -1 if and only if exactly one of 10 and 11 is present and some partition holds two; otherwise every bucket occurs as often as before and every size is kept, 10 and 11 end together unless no partition holds two, and nothing changes when they are together or one is absent; when apart, the partition of 10 takes both if it can spare a bucket, else that of 11, else the first with two, and the exact partitions after it are stated |
| `Resize.RangeUpIsWindow` | apps/dnn/stb_image_resize.h:1009-1021 | the enlarging range is a window of half-width support around a centre that moves by 1/scale per row |
| `Resize.RangeDownIsWindow` | apps/dnn/stb_image_resize.h:1024-1036 | the reducing range is one around a centre that moves by scale per row |
| `Resize.WindowWidth` | apps/dnn/stb_image_resize.h:883-892 | a range is never empty and at most ceil(2 * support) wide |
| `Resize.WindowStep` | apps/dnn/stb_image_resize.h:1009-1036 | consecutive ranges move forward by at most one at either end |
| `Resize.SlotsDiffer` | apps/dnn/stb_image_resize.h:1425-1447 | scanlines less than N apart have different slots: the ring's assertion |
| `Resize.AllShift` | apps/dnn/stb_image_resize.h:2098-2102 | dropping the first scanline leaves every other in its slot |
| `Resize.Ring.Add` | apps/dnn/stb_image_resize.h:1425-1447 | the new scanline is in the ring and every other keeps its content |
| `Resize.Ring.Pop` | apps/dnn/stb_image_resize.h:2087-2103 | the first scanline leaves, the others keep their content; the last one leaves an empty ring |
| `Resize.Slide` | apps/dnn/stb_image_resize.h:2082-2111 | after dropping and loading, the ring holds exactly the scanlines of the range |
| `Resize.RoundUp` | apps/dnn/stb_image_resize.h:2075-2117 | an output row is computed from exactly its contributors inside its range, in order |
| `Resize.BufferLoopUpsample` | apps/dnn/stb_image_resize.h:2067-2118 | for every filter, pair of heights and table of contributors inside the ranges, every output row is computed from exactly its own; the window never outgrows the ring |
| `Resize.PixelWidth` | apps/dnn/stb_image_resize.h:883-892 | when reducing, the filter width covers every output range |
| `Resize.ReachFirst` | apps/dnn/stb_image_resize.h:896-899 | the first row visited starts at or before output row 0 |
| `Resize.ReachLast` | apps/dnn/stb_image_resize.h:896-899 | the last row visited reaches the last output row |
| `Resize.Untouched` | apps/dnn/stb_image_resize.h:2176-2201 | a row that no range has reached has received nothing |
| `Resize.Finished` | apps/dnn/stb_image_resize.h:2176-2201 | a row before the current range will receive nothing more |
| `Resize.EmptyRingBuffer` | apps/dnn/stb_image_resize.h:2120-2163 | rows before the needed one are encoded once each, in order, complete; rows outside the image are dropped |
| `Resize.ResampleVerticalDownsample` | apps/dnn/stb_image_resize.h:1987-2063 | the input row is added to exactly the output rows it contributes to |
| `Resize.ReduceRow` | apps/dnn/stb_image_resize.h:2188-2200 | one input row keeps the loop's invariant: finished rows are out, the ring shows the current range |
| `Resize.SkipRow` | apps/dnn/stb_image_resize.h:2185-2186 | a row outside the image changes nothing |
| `Resize.BeyondMargin` | apps/dnn/stb_image_resize.h:896-899 | a row above the margin ends before the image and a row below it starts after: the rows visited are enough |
| `Resize.BufferLoopDownsample` | apps/dnn/stb_image_resize.h:2165-2204 | for every filter and pair of heights, rows 0..output_h - 1 come out exactly once each, in order, with every input row that contributes to them, visited or not |
| `Arenas.BeginIsPage` | apps/silo/allocator.cc:124-135 | regions start at page boundaries |
| `Arenas.InRegion` | apps/silo/allocator.cc:124-135 | regions lie inside the managed range |
| `Arenas.CpuIs` | apps/silo/allocator.cc:124-130 | every address of a region maps to its CPU |
| `Arenas.IceilLeast` | apps/silo/util.h:183-189 | the least multiple at or above x |
| `Arenas.FirstUnit` | apps/silo/allocator.cc:165-166 | carving starts at the first whole unit of the page, and leaves none before it |
| `Arenas.NextIsNew` | apps/silo/allocator.cc:169-178 | the unit about to be linked is in no list and in no other carver's page |
| `Arenas.ClaimKeeps` | apps/silo/allocator.cc:200-207 | claiming a region's list keeps every list sound |
| `Arenas.TakePageKeeps` | apps/silo/allocator.cc:222-244 | taking the region's next page, one nobody has, keeps every list sound |
| `Arenas.TakeRawKeeps` | apps/silo/allocator.cc:214-244 | so does taking unmanaged pages |
| `Arenas.LinkKeeps` | apps/silo/allocator.cc:169-179 | so does linking one more unit while others run |
| `Arenas.FinishKeeps` | apps/silo/allocator.cc:180-187 | the last link makes the page a list holding all its units |
| `Arenas.AllocKeeps` | apps/silo/rcu.cc:116-125 | so does taking a unit for the program |
| `Arenas.DeallocKeeps` | apps/silo/rcu.cc:150-160 | so does giving a unit back, to any caller's list |
| `Arenas.GatherKeeps` | apps/silo/allocator.cc:274-294 | so does moving one unit to the list of the region that owns its address |
| `Arenas.SpliceKeeps` | apps/silo/allocator.cc:296-307 | so does splicing such a list onto the region's |
| `Arenas.StepKeeps` | apps/silo/allocator.cc:155-308 | every action of any caller keeps the whole invariant, arbitrary writes of the program into its own units included |
| `Arenas.RunKeeps` | apps/silo/allocator.cc:155-308 | any interleaving of actions keeps the invariant, and no carved unit is ever lost |
| `Arenas.ExactlyOnce` | apps/silo/allocator.cc:155-308 | every unit of a carved page is in use by the program and in no list, or in exactly one list at one position, of its own size class and region |
| `Arenas.UnitIsInOnePlace` | apps/silo/allocator.cc:155-308 | so after any run from start-up each such unit is in use or in exactly one list, of its own size class |
| `Arenas.EveryListEnds` | apps/silo/allocator.cc:155-308 | after any run from start-up, every list walks through its units to the null pointer |
| `Arenas.WalkEnds` | apps/silo/allocator.cc:272-274 | following links visits each unit and ends: no cycle |
| `Arenas.Allocator.constructor` | apps/silo/allocator.cc:78-138 | start-up gives every region its whole range and no lists |
| `Arenas.Allocator.InitializePage` | apps/silo/allocator.cc:155-188 | all units of the page, in ascending order, become one list; no other list and no region changes; the run is one link per unit |
| `Arenas.Allocator.AllocateArenas` | apps/silo/allocator.cc:191-211 | the region's list when it has one, and then no region changes; else all units of its next page, and exactly that page leaves the region; fails exactly when both are exhausted, and then nothing changes; no other list changes |
| `Arenas.Allocator.AllocateUnmanaged` | apps/silo/allocator.cc:214-263 | the region's next pages, failing exactly when they do not fit |
| `Arenas.Allocator.GatherClass` | apps/silo/allocator.cc:272-295 | the caller's list of one size class is split by owning region; no region changes |
| `Arenas.Allocator.SpliceRegion` | apps/silo/allocator.cc:296-307 | every group of the region is put in front of the region's list of the same class; no region changes |
| `Arenas.Allocator.ReleaseArenas` | apps/silo/allocator.cc:267-308 | each region's list of each class becomes its own units of the caller's list, last first, followed by what it held; the caller's lists are empty; nothing else moves, and the run is the caller's own gathers and splices |
| `Arenas.Allocator.Pop` | apps/silo/rcu.cc:116-125 | the first unit of the caller's list, which is never empty then |
| `Arenas.Allocator.Push` | apps/silo/rcu.cc:150-160 | the unit heads the caller's list |
| `Harness.NoAssertionFails` | apps/harness/client.cpp:106-126 | in every state of the invariant the request is in flight, time has advanced past its arrival and covers its service time, and the ROI starts only from warm-up |
| `Harness.AssertionsNeverFail` | apps/harness/client.cpp:106-140 | so no assertion fails in any interleaving |
| `Harness.SamplesAtDump` | apps/harness/tbench_server_integrated.cpp:61-89 | at the dump the samples differ from maxReqs by at most threads - 1, exactly maxReqs for one thread; with warmupReqs = 0 there are none |
| `Harness.OneTooFew` | apps/harness/tbench_server_integrated.cpp:76-88 | a run of two threads that dumps one sample fewer than maxReqs: the bound is reached below, |
| `Harness.OneTooMany` | apps/harness/tbench_server_integrated.cpp:76-88 | and one that dumps one more: reached above |
| `Harness.NoSampleWithoutWarmup` | apps/harness/tbench_server_integrated.cpp:78-86 | a run with no warm-up request that dumps no sample although the limit is one |
| `Harness.DumpsAtTheLimit` | apps/harness/tbench_server_integrated.cpp:78-86 | the dump happens if and only if maxReqs is positive and the count has reached warmupReqs + maxReqs |
| `Harness.RoiBeginsOnce` | apps/harness/tbench_server_integrated.cpp:78-82 | the ROI has begun once when warm-up is positive and over, and not otherwise |
| `Harness.SamplesSplit` | apps/harness/client.cpp:113-125 | queue plus service is sojourn for every sample, and the in-flight counter is the map's size, at most the thread count |
| `Harness.IdsNeverRepeat` | apps/harness/client.cpp:91-94 | two requests of one run never get the same id |
| `Harness.StepKeeps` | apps/harness/client.cpp:63-140 | every action of any thread keeps the invariant |
| `Harness.RunKeeps` | apps/harness/tbench_server_integrated.cpp:52-89 | so does every interleaving |
| `Harness.IntegratedServer.StartReq` | apps/harness/client.cpp:85-96 | the next id, in flight with its arrival time; nothing else changes |
| `Harness.IntegratedServer.NoteStart` | apps/harness/tbench_server_integrated.cpp:55-57 | the thread's request id and start time are noted |
| `Harness.IntegratedServer.MeasureService` | apps/harness/tbench_server_integrated.cpp:61-72 | the response carries the thread's id and its service time |
| `Harness.IntegratedServer.FiniReq` | apps/harness/client.cpp:106-131 | in the ROI one sample is added to each vector; the request leaves the map |
| `Harness.IntegratedServer.CountResp` | apps/harness/tbench_server_integrated.cpp:78-88 | the count grows; at the end of warm-up the ROI begins with empty vectors, at the limit the dump happens |
| `Harness.IntegratedServer.RecvReq` | apps/harness/tbench_server_integrated.cpp:52-59 | a new request is in flight and its start noted; the state is the run of exactly those actions, the start of all when it is the first |
| `Harness.IntegratedServer.SendResp` | apps/harness/tbench_server_integrated.cpp:61-89 | undisturbed, the sample splits the time from arrival to now at the start of service; the state is the run of measuring, finishing and counting |
| `Bst.PerfectKeys` | microbenchmarks/microbenchmark.cpp:64-79 | the tree built holds every key within 2^depth - 1 of its root, in order |
| `Bst.AssertsHoldIff` | microbenchmarks/microbenchmark.cpp:64-79 | the asserts hold down the whole tree if and only if val is a multiple of 2^depth, at least 2^depth, and odd at depth 0 |
| `Bst.BuildTree` | microbenchmarks/microbenchmark.cpp:64-79 | distinct new nodes with parent links form the perfect tree around val |
| `Bst.DeleteIfLeaf` | microbenchmarks/microbenchmark.cpp:81-100 | a leaf with the key is unlinked from the side of its parent it hangs on, the root stays; links and distinctness are kept |
| `Bst.RemovedIs` | microbenchmarks/microbenchmark.cpp:81-100 | search order is kept, and a key is taken out exactly when it sits on a leaf |
| `Bst.AfterKeeps` | microbenchmarks/microbenchmark.cpp:111-115 | any sequence of deletions keeps search order, the root and adds no key |
| `Bst.SomeKeyMakesProgress` | microbenchmarks/microbenchmark.cpp:106-115 | while the root has a child, some key of the range takes one node away |
| `Bst.LoopCanProgress` | microbenchmarks/microbenchmark.cpp:103-115 | so at every point of the loop some key that can be drawn makes progress |
| `Bst.DoStuff` | microbenchmarks/microbenchmark.cpp:102-118 | the loop performs the deletions drawn, and the count returned is the first after which the root is a leaf, or all keys |
| `CoreBlocks.RoundUpLeast` | apps/silo/util.h:193-199 | the least multiple at or above x |
| `CoreBlocks.RoundingFits` | apps/silo/core.cc:13-14 | rounding a counter within the limit never wraps |
| `CoreBlocks.RightIffNoWrap` | apps/silo/core.cc:13-22 | a successful exchange hands out a block inside the limit without turning the counter back if and only if the 32-bit sum did not wrap |
| `CoreBlocks.HarmlessIff` | apps/silo/core.cc:13-22 | the condition on the arguments holds if and only if no counter within the limit lets the call succeed with a sum that wrapped |
| `CoreBlocks.HarmfulWraps` | apps/silo/core.cc:13-22 | any other arguments succeed and wrap at some counter above 0 |
| `CoreBlocks.RightExactlyWhenHarmless` | apps/silo/core.cc:10-23 | for any set of permitted calls: in every run of any threads all blocks lie in [0, NMAXCORES) and are pairwise disjoint, if and only if every permitted call is harmless |
| `CoreBlocks.BlocksAreRight` | apps/silo/core.cc:10-23 | with harmless calls only, every run hands out blocks inside the limit and pairwise disjoint |
| `CoreBlocks.HarmfulRun` | apps/silo/core.cc:10-23 | a run of any other call, after ids drawn by core_id, hands out a block that leaves the limit |
| `CoreBlocks.HugeRequestOverlaps` | apps/silo/core.cc:10-23 | a run in which a huge request wraps the counter back and the next block overlaps an earlier one |
| `CoreBlocks.StepKeeps` | apps/silo/core.cc:10-23 | every action of threads with harmless calls keeps the blocks in order below the counter, which never decreases |
| `CoreBlocks.RunKeeps` | apps/silo/core.cc:10-23 | so does any interleaving of harmless calls, and no block is withdrawn |
| `CoreBlocks.BlockIsAligned` | apps/silo/core.cc:13-22 | each block starts at a multiple of its caller's alignment |
| `CoreBlocks.NoRoomStays` | apps/silo/core.cc:16-17 | a harmless request refused once, whatever its size, would be refused ever after |
| `CoreBlocks.CoreIds.Allocate` | apps/silo/core.cc:10-23 | under any finite interference the final state is a run of this call's loads and exchanges among the others' actions, ending at the first success or refusal; a refusal leaves the counter as the others made it, with no room now or later; a harmless call's block starts at the least multiple of the alignment at or above the counter it exchanged |

## Left out

- Inflate.Blocks: reads fixed and stored blocks only; dynamic Huffman blocks, which the compressor never sends, are malformed to it.
- Deflate.Compress: lengths are unbounded; a data length near 2^31, where C's `int` overflows, is not modelled, nor is a failing `malloc`.
- Png.FilterRow: the sum of a line is an unbounded integer; the source's `int` holds it while 128 * width * components stays below 2^31.
- Png.ImageData: signature, chunk headers and CRC-32 are constants and plumbing.
- Tga.WritePicture: a row is a sequence of pixels rather than an offset into one array; the 18-byte header, the form without run lengths and BMP's pixel blending are not modelled.
- Hdr.WriteScanline: takes pixels already converted to RGBE; the floating-point conversion and the text header are not modelled.
- Jpeg.EncodeImage: takes the blocks of each MCU as quantised coefficients in zigzag order; DCT, quantisation, colour conversion, the averaging of subsampled components and the headers other than table ids, selectors and sampling factors are not modelled.
- UcpSpec.Slope: curves are real numbers; rounding of doubles is not modelled.
- Ucp.DoUcpMrcs: a stack is a sequence; the copies of the bucket repair inside `do_ucp_mrcs` and `do_ucp_ipcs`, which read an uninitialised victim, and the mapping of partitions to hardware masks are not modelled.
- Ucp.MaxMarginalUtilIpcs: the loop of `do_ucp_ipcs` around it mirrors `do_ucp_mrcs` and is not modelled.
- CosRepair.VerifyIntelCosIssue: promises nothing about the partitions once partition -1 has been used, since what the source reads and writes there is undefined.
- Resize.BufferLoopUpsample: sample ranges are exact real arithmetic with zero shift; the weights, the pixels themselves and edge modes are not modelled. The table of contributors, a range with zero weights trimmed off, is a parameter.
- Resize.BufferLoopDownsample: likewise; the table of contributors is a parameter, anywhere inside each row's range and the image.
- Arenas.Allocator.ReleaseArenas: visits every region and skips empty groups instead of keeping a map of the regions met; between phases other callers' actions may come, which the state machine covers.
- Arenas.RunKeeps: mmap, madvise, page faulting, the checking variant of the page layout and the locks themselves are not modelled; out of memory aborts the source and is a false result here.
- Harness.SamplesAtDump: the barrier is one action, the clock never runs backwards, `sendResp`'s own check that the clock has advanced is assumed, and 64-bit counters do not wrap; the random arrival times and request contents are parameters.
- Bst.DoStuff: the keys drawn are a parameter; shifts of 31 bits and more, and freeing memory, are not modelled.
- CoreBlocks.CoreIds.Allocate: interference is finite, so the retry loop ends, and consists of harmless calls, since a harmful call of another thread can turn the counter back; weak memory orders are not modelled.
- Networked server and client, the profiler's signal and counter code, logging, and all Python code: foreign calls or easy members.
