# TrueCrypt common algorithms: models and proofs

This project models algorithms of TrueCrypt's `Common/` directory and proves what they are for.
`dafny verify dfyconfig.toml` checks all of it. The parts can be read separately.

**The parallel encryption pool** (`ThreadPool*.dfy`). A transition system with one step per interlocked
operation, event set, event wait or mutex operation; any number of callers and 2 to 64 workers share a ring
of 128 work items. A history of posted items ("tickets") makes the invariant sayable. Proved over all runs:
a worker that has already freed its item still finds its own batch behind `FirstFragment`; buffers end as one
sequential call leaves them; no deadlock, no lost wake-up, no infinite run. `ThreadPoolKeys` and
`ThreadPoolLateEvent` are about the count and the events that key derivations share. `CryptoPool.dfy` puts the modes
of operation into the pool, which is correct only because every mode treats each data unit independently.

**DEFLATE** (`Inflate*.dfy`). `InflateFormat` is RFC 1951 as a decoder over numbered bits; `InflateHuffman` is
the canonical code of section 3.2.2. `InflateBuild`, `InflateGrow` and `InflateHuft` build the tables of
`huft_build`, `InflateForest` is the invariant of unfinished tables, `InflateTables` the walk. `Inflate` is the
decoder with its bit buffer and circular window, `InflateRejected` shows streams it refuses. `InflateLengths`,
`InflateEncoder` and `InflateBlocks` are the format from the other side, by arithmetic: an encoder for all kinds of
blocks, and the proof that what it writes is read back; `InflateExample` has a stream with a match.

**Modes of operation** (`Crypto*.dfy`). `CryptoSpec` says what XTS, LRW, CBC, inner and outer CBC compute for
any block ciphers; `CryptoLaws` proves inverses and independence of data units; `CryptoBuffers`, `CryptoCbc`,
`CryptoXts` and `Crypto` are the program's functions on a buffer in place. `CryptoNumbers` and `CryptoStandard`
say block by block, with plain numbers, what comes out; `CryptoNames` is about the order of ciphers in a cascade.
`CryptoStraddle` is about buffers that do not start with a data unit, `CryptoLength` about long ones.

**Galois fields** (`Gf*.dfy`). `GfBytes`, `GfBits` and `GfBlocks` hold bit-level facts, `GfSums` sums of chosen terms;
`GfMul128`, `GfMul64` and `GfFirst128` are the tables and both multiplications. `CryptoGf` says which products
the tweaks of LRW and XTS are.

**Formatting** (`Format*.dfy`, `Fat*.dfy`). `FormatThread` is the write thread as a transition system,
`FormatWriter` the sector buffer, `Fat`, `FatLayout` and `FatEntries` the layout arithmetic, `FormatFat` the order
of sectors, `FormatDevice` what FormatFat and the write thread leave on a device.

**CRC, keyfiles, XML** (`Crc.dfy`, `Keyfiles.dfy`, `Xml.dfy`).

Conventions: a pointer into a buffer is an index; C integers are unbounded where the program's values fit
their types, and wrap-around is written out where it matters (unit numbers, LRW indices, window positions,
bytes of keyfile pools, sizes of fragments). Ciphers are functions; proofs about inverses assume only that
deciphering with the same key schedule undoes enciphering. Files, devices, reads, random keys and what the
progress bar answers are parameters.

Where code and comments disagree, the code is followed: `huft_build` returns 0, not 2, for all-zero lengths.
These properties that one could expect hold only under a condition, which is proved to be exact:

- A valid DEFLATE stream is not always accepted. It is exactly if no dynamic block sends lengths of more than
  30 distance codes, and none sends distance codes of no bits together with more than 257 literal and length
  codes; section 3.2.7 of RFC 1951 allows both (`Inflate.Supported`, `Inflate.Inflater.DecompressDeflatedData`,
  `InflateRejected.ValidButRejected`).
- `EncryptBufferXTS` does not always encrypt each further data unit from its first block, as its documentation
  says. With less than a data unit that starts in one unit and ends in the next it goes on with blocks 32, 33
  and so on of the first one; otherwise it does (`CryptoStraddle.DocumentedUnlessStraddling`).
- `EncryptBuffer` does not always encrypt the whole buffer: in CBC modes only the length modulo 2^32 is encrypted
  (`CryptoLength.WholeUnlessCut`, `CryptoLength.NothingEncrypted`).
- Flushes that all return TRUE do not mean that everything is on the device; it is exactly if the last write
  succeeded (`FormatDevice.Format`, `FormatThread.AtTheEnd`, `FormatThread.LastWriteIsUnchecked`).
- The final `cluster_count` is not always the number of clusters after the FATs; it is one more exactly if
  the remainder of the sectors is less than that of the FATs (`Fat.SubtractFats`, `Fat.CountCanBeTooHigh`).
- A FAT does not always have entries for all clusters, nor is the type always the one for the final count
  (`FatEntries.CoversUnless`, `FatEntries.TooFewEntries`, `FatEntries.TooFewShortEntries`; `FatEntries.TypeIsRight`,
  `FatEntries.TypeCanBeWrong`).
- A set NoOutstandingWorkItemEvent does not mean that no key derivation is outstanding. A worker decrements the
  count and sets the event in two steps; the event can be relied on exactly if no other derivation is counted,
  and clears the event, in between (`ThreadPoolLateEvent.TrueUnlessLate`, `ThreadPoolLateEvent.EventCanBeLate`).
- A buffer of `xmlTextSize` characters is not always enough for `XmlGetNodeText`, which accepts a body of that
  size; it is exactly if the body is shorter or contains an entity (`Xml.BufferSuffices`, `Xml.BufferTooSmall`).
- `XmlQuoteText` does not accept all text that fits with its terminator. It needs one character more exactly
  if the text ends with a special character (`Xml.XmlQuoteText`, `Xml.QuotingCanFail`).

## Model

| member | source | states |
|---|---|---|
| ThreadPoolModel.WorkerStep | Common/EncryptionThreadPool.c:123-215 | every atomic step of a worker; it never touches the locals of a caller |
| ThreadPoolModel.CallerStep | Common/EncryptionThreadPool.c:349-489 | every atomic step of a call of EncryptionThreadPoolDoWork or EncryptionThreadPoolBeginKeyDerivation; other callers keep their locals |
| ThreadPoolProgram.FragmentsTile | Common/EncryptionThreadPool.c:403-444 | the fragments together cover all data units of the request |
| ThreadPoolProgram.RegionsDisjoint | Common/EncryptionThreadPool.c:445-476 | fragments of one request are consecutive, disjoint parts of its buffer |
| ThreadPoolProgram.NextFragment | Common/EncryptionThreadPool.c:463-474 | each fragment starts where the one before it ends, with the matching 64-bit unit number |
| ThreadPoolProgram.FragmentIsSmall | Common/EncryptionThreadPool.c:463 | the 32-bit product for the size of a fragment does not wrap around |
| ThreadPoolSafety.RingNext | Common/EncryptionThreadPool.c:123-489 | the ring invariant is kept by every step of every thread |
| ThreadPoolRing.FreeMeansRetired | Common/EncryptionThreadPool.c:448-453 | an item that is found free at the end of a lap has no worker that still uses it |
| ThreadPoolRing.FreeFirstIsUnused | Common/EncryptionThreadPool.c:431-442 | the item in which a caller opens its batch is nobody else's first fragment |
| ThreadPoolRing.FirstFragmentIsOwn | Common/EncryptionThreadPool.c:199-206 | from taking a fragment to counting it down, a worker finds its own batch's first fragment behind FirstFragment: not free, with this batch's count and event |
| ThreadPoolSafety.ReachableFirstFragment | Common/EncryptionThreadPool.c:199-206 | the same in every reachable state, after the worker has already freed its own item |
| ThreadPoolData.Assembled | Common/EncryptionThreadPool.c:445-476 | parts that were processed one by one, each with its own unit number, make up the sequential result |
| ThreadPoolData.ReturnedBufferIsSequential | Common/EncryptionThreadPool.c:388-489 | when DoWork has consumed its completion event, in any run with any other callers, its buffer is what one sequential call leaves |
| ThreadPoolData.FlagMeansDerived | Common/EncryptionThreadPool.c:180-193 | a set completion flag means that the derived key is in the caller's buffer |
| ThreadPoolProgress.WakesNext | Common/EncryptionThreadPool.c:129-143 | no wake-up is lost: what a waiting thread waits for, or somebody who is about to signal it, is always there |
| ThreadPoolProgress.NoDeadlock | Common/EncryptionThreadPool.c:129-143 | while a call has not returned, or an item that was posted has not been worked on, some thread can make a step |
| ThreadPoolTermination.NextSpends | Common/EncryptionThreadPool.c:123-489 | every step makes a budget smaller |
| ThreadPoolTermination.RunsAreFinite | Common/EncryptionThreadPool.c:123-489 | no run is longer than the budget at its start |
| ThreadPoolTermination.EveryRunCompletes | Common/EncryptionThreadPool.c:388-489 | every run can be continued until no thread can make a step, and then nothing is unfinished |
| ThreadPoolTermination.StoppedMeansFinished | Common/EncryptionThreadPool.c:349-489 | a run that cannot go on has finished every request, key derivations too: all calls have returned, all items are free, every buffer has the sequential result, every derivation is flagged and announced, and none is outstanding, which has been said |
| ThreadPoolKeys.KeysNext | Common/EncryptionThreadPool.c:185-193 | the book-keeping of derivations is kept by every step: who is outstanding, the count, flags and both events |
| ThreadPoolKeys.OutstandingIsExact | Common/EncryptionThreadPool.c:188-189 | in every reachable state the shared count is the number of derivations counted and not uncounted; if it is zero, that has been said or a worker is just about to say it |
| ThreadPoolLateEvent.TrueUnlessLate | Common/EncryptionThreadPool.c:188-189 | a set NoOutstandingWorkItemEvent can be relied on all through a run if and only if no worker sets it after another derivation has been counted |
| ThreadPoolLateEvent.EventCanBeLate | Common/EncryptionThreadPool.c:379-380 | a run in which that happens |
| CryptoPool.WorkIsUnitWise | Common/Crypto.c:1370-1374 | what the workers do to data units meets what the pool needs, in every mode |
| CryptoPool.RequestIsValid | Common/Crypto.c:1370-1374 | a request with whole data units and fragments under 4 GiB is one the pool accepts |
| CryptoPool.PoolComputesMode | Common/Crypto.c:1370-1489 | EncryptDataUnits through the pool leaves what EncryptDataUnitsCurrentThread leaves, under every interleaving; the same for decryption |
| CryptoPool.PoolRoundTrip | Common/Crypto.c:1593-1716 | a pool decrypts what a pool has encrypted, whatever the numbers of threads |
| InflateHuffman.DecodeIsMatching | Common/Inflate.c:1162-1258 | the canonical code: a bit string begins with exactly one symbol's code, the one found |
| InflateHuffman.PrefixFree | Common/Inflate.c:1162-1258 | no code is the beginning of another |
| InflateHuffman.NoCodeMeansNoMatch | Common/Inflate.c:1162-1258 | outside an incomplete code no symbol matches |
| InflateBuild.CountLengths | Common/Inflate.c:1106-1112 | how many codes there are of each length |
| InflateBuild.LengthRange | Common/Inflate.c:1122-1133 | the shortest and the longest length in use |
| InflateBuild.FillOut | Common/Inflate.c:1136-1142 | negative exactly for an oversubscribed set of lengths, zero exactly for a complete one |
| InflateBuild.StartingOffsets | Common/Inflate.c:1145-1150 | where the values of each length start |
| InflateBuild.SortValues | Common/Inflate.c:1153-1160 | values sorted by length and within a length by symbol |
| InflateGrow.TableBits | Common/Inflate.c:1185-1200 | the width of a new table; one that starts before the end-of-block code ends does not extend past it |
| InflateGrow.GrowTables | Common/Inflate.c:1180-1227 | tables are made and linked until the next code fits, and the forest stays well formed |
| InflateHuft.FillEntries | Common/Inflate.c:1244-1247 | exactly the entries whose low bits are the reversed code get its leaf |
| InflateHuft.Increment | Common/Inflate.c:1249-1252 | the reversed code after this one |
| InflateHuft.PlaceCode | Common/Inflate.c:1229-1257 | one more code is decoded correctly, all earlier ones still are |
| InflateHuft.MakeTables | Common/Inflate.c:1163-1262 | a finished forest of tables for all codes |
| InflateHuft.HuftBuild | Common/Inflate.c:1064-1267 | return codes, exactly: 0 for all-zero lengths (the comment says 2), 2 for oversubscribed, 1 for incomplete with more than one-bit codes, otherwise 0; and tables that decode the canonical code |
| InflateHuft.TablesDecode | Common/Inflate.c:556-566 | walking the tables on any bits gives the symbol and length of the canonical code, or an entry 99 where no code matches |
| InflateHuft.TablesStopAtEndOfBlock | Common/Inflate.c:1197-1198 | on the way to symbol 256 exactly its own bits are asked for |
| InflateTables.WalkFinds | Common/Inflate.c:556-566 | induction over the tables for the walk |
| InflateWindow.CopyRun | Common/Inflate.c:602-630 | runs copied piece by piece append up to a naive overlapping copy |
| InflateWindow.FlushWindow | Common/Inflate.c:625-629 | flushing a full window keeps the history of the output |
| Inflate.Inflater.NeedBits | Common/Inflate.c:483-486 | reads whole bytes until enough bits are there; fails only at the end of the input |
| Inflate.Inflater.LookUp | Common/Inflate.c:557-566 | finds the code at the front of the stream, and reads no byte after it has the bits the tables ask for |
| Inflate.Inflater.CopyBytes | Common/Inflate.c:602-630 | the circular copy, both ways and with flushes, appends the naive copy of the match |
| Inflate.Inflater.InflateMatch | Common/Inflate.c:581-630 | a length, a distance and their extra bits |
| Inflate.Inflater.InflateCodes | Common/Inflate.c:530-644 | a compressed block decodes to what section 3.2.3 of RFC 1951 says |
| Inflate.Inflater.InflateStored | Common/Inflate.c:649-700 | a stored block, from the next byte boundary |
| Inflate.Inflater.InflateFixed | Common/Inflate.c:711-757 | the block with the fixed codes of section 3.2.6 of RFC 1951 |
| Inflate.Inflater.ReadCodeLengths | Common/Inflate.c:834-879 | the code lengths with their repetitions |
| Inflate.Inflater.InflateDynamic | Common/Inflate.c:761-937 | a block with its own codes, section 3.2.7 of RFC 1951: decoded, with its exact output, if and only if the program supports the block |
| Inflate.Inflater.InflateBlock | Common/Inflate.c:942-985 | block header and block; refused exactly if it is a dynamic block that is not supported |
| Inflate.Inflater.InflateBlocks | Common/Inflate.c:989-1034 | all blocks of a valid stream, if and only if all of them are supported |
| Inflate.Inflater.DecompressDeflatedData | Common/Inflate.c:1294-1307 | on every valid stream with two bytes to spare: the output of the specification decoder if all blocks are supported, otherwise zero |
| InflateRejected.ValidButRejected | Common/Inflate.c:805-907 | two valid streams of one literal that the program refuses: one without a match and without distance codes, and one with 31 distance codes |
| InflateLengths.LengthTable | Common/Inflate.c:422-428 | lengths start with 3, each symbol takes over where the extra bits of the one before it end, and 258 stands alone |
| InflateLengths.DistanceTable | Common/Inflate.c:429-436 | distances run the same way from 1 to 32768 |
| InflateLengths.InOrder | Common/Inflate.c:422-436 | consecutive entries stand for different numbers, in order |
| InflateLengths.OneLength | Common/Inflate.c:422-428 | lengths 3 to 257 have exactly one symbol and one value of the extra bits each; 258 has two |
| InflateLengths.OneDistance | Common/Inflate.c:429-436 | distances 1 to 32768 have exactly one symbol and one value of the extra bits each |
| InflateLengths.LengthIsSent | Common/Inflate.c:422-428 | the symbol found by halving length - 3, with the low bits as extra bits, stands for the length |
| InflateLengths.DistanceIsSent | Common/Inflate.c:429-436 | the same for distances, by halving distance - 1 |
| InflateEncoder.TakeCode | Common/Inflate.c:556-566 | the bits of a canonical code, most significant first, are read as its symbol |
| InflateEncoder.TakeData | Common/Inflate.c:530-644 | literals and matches that were encoded bit by bit are read as the bytes they stand for |
| InflateBlocks.TakeRuns | Common/Inflate.c:834-879 | code lengths that were sent as single lengths, repetitions and zeros are read back |
| InflateBlocks.TakeClens | Common/Inflate.c:420-421 | lengths of code length codes, sent in the order 16, 17, 18, 0, 8, 7, 9, 6 and so on, are read back |
| InflateBlocks.FixedCodes | Common/Inflate.c:725-757 | the fixed codes as numbers: 00110000, 110010000, 0000000 and 11000000 upwards, and five bits for distances |
| InflateBlocks.TakeStream | Common/Inflate.c:989-1034 | stored, fixed and dynamic blocks that an encoder has written are read as what they stand for, and the stream is supported exactly if all of them are |
| InflateBlocks.EncodedIsDecoded | Common/Inflate.c:1294-1307 | the same for the bytes given to DecompressDeflatedData: what any encoder has put in comes out |
| InflateBlocks.LiteralsExpand | Common/Inflate.c:530-644 | all data can be encoded |
| InflateExample.FifteenLetters | Common/Inflate.c:422-436 | the stream 4b 4c 44 01 00, with a match of 13 bytes, stands for fifteen letters a |
| CryptoBuffers.EAGetNextCipher | Common/Crypto.c:646-656 | the cipher after a given one in the list, zero after the last |
| CryptoBuffers.EAGetPreviousCipher | Common/Crypto.c:659-673 | the cipher before a given one, zero before the first |
| CryptoBuffers.EAGetLastCipher | Common/Crypto.c:637-643 | the last cipher of the list |
| CryptoBuffers.EAGetKeyScheduleSize | Common/Crypto.c:575-587 | the offset behind the last key schedule |
| CryptoBuffers.EncipherCascade | Common/Crypto.c:1104-1113 | forward walk: every cipher with the schedule at its own offset |
| CryptoBuffers.DecipherCascade | Common/Crypto.c:1203-1211 | backward walk from the end of the schedules, with the same offsets |
| CryptoBuffers.NextIndex | Common/Crypto.c:862-865 | the big-endian index plus one, with carry through all bytes |
| CryptoBuffers.EncryptBufferLRW | Common/Crypto.c:816-905 | LRW over a buffer in place: block n gets index + n |
| CryptoBuffers.DecryptBufferLRW | Common/Crypto.c:908-997 | the inverse, in place |
| CryptoCbc.EncryptBufferCBC | Common/Crypto.c:1066-1143 | CBC with whitening over a buffer in place, for one cipher or around a cascade |
| CryptoCbc.DecryptBufferCBC | Common/Crypto.c:1154-1235 | the inverse, in place |
| CryptoXts.EncryptBufferXTSNonParallel | Common/Xts.c:198-313 | XTS over a buffer in place, block by block, from any block of the first data unit on |
| CryptoXts.EncryptBufferXTSParallel | Common/Xts.c:57-195 | whitening, enciphering and whitening whole data units computes the same |
| CryptoXts.DecryptBufferXTSNonParallel | Common/Xts.c:464-582 | the inverse, block by block |
| CryptoXts.DecryptBufferXTSParallel | Common/Xts.c:332-461 | the inverse, by whole data units |
| CryptoXts.EncryptBufferXTS | Common/Xts.c:41-54 | both ways compute the same, so that the choice between them does not show |
| CryptoXts.DecryptBufferXTS | Common/Xts.c:316-329 | the same for decryption |
| CryptoStraddle.DocumentedUnlessStraddling | Common/Xts.c:29-54 | a buffer that starts inside a data unit comes out as documented, for all ciphers and data, if and only if it holds 32 blocks or more or ends in the unit where it starts |
| CryptoStraddle.StraddlingUndone | Common/Xts.c:316-329 | decryption undoes encryption also for the other buffers |
| CryptoStandard.XtsIsStandard | Common/Xts.c:198-313 | every block of a buffer in XTS, as in IEEE Std 1619: added to its tweak, enciphered, added again; the tweak of block m is the encrypted number of unit unitNo + m / 32, times x^(m % 32); and the same for decryption |
| CryptoNumbers.LittleEndianBytes | Common/Xts.c:76-88 | byte k of the number to be encrypted is unitNo / 256^k modulo 256 |
| CryptoNumbers.BigEndianBytes | Common/Crypto.c:816-840 | byte k from the end of an LRW index is the index / 256^k modulo 256 |
| CryptoNumbers.UnitsDiffer | Common/Xts.c:76-88 | different data units have different numbers to encrypt |
| CryptoStandard.XtsCascade | Common/Crypto.c:1376-1416 | one, two or three ciphers in XTS: which cipher comes when, and where its two key schedules lie |
| CryptoStandard.BlockCascade | Common/Crypto.c:1104-1113 | the same for a block, in LRW and outer CBC |
| CryptoStandard.WholeIsUnits | Common/Crypto.c:1243-1290 | EncryptBuffer and DecryptBuffer work on data units from number 0 on in XTS, and outside hidden volumes from number 1 on in LRW |
| CryptoStandard.FirstBlock | Common/Crypto.c:1254-1258 | in XTS with one cipher the first block of a volume header is whitened with sixteen encrypted zero bytes |
| CryptoStandard.LrwIsStandard | Common/Crypto.c:816-905 | every block of data units in LRW is added to the product of the second key and its index, before and after its encipherment; the index counts from the first data unit after the header, from 1 on |
| CryptoStandard.LrwWhole | Common/Crypto.c:1273-1290 | in a whole buffer indices begin with 1 |
| CryptoStandard.CbcIsStandard | Common/Crypto.c:1066-1143 | without its whitening each block is the cipher of its plaintext and the block before it, or the IV |
| CryptoStandard.CbcUnits | Common/Crypto.c:1436-1489 | each data unit has IV and whitening of its own number; outer CBC chains around all ciphers, inner CBC around each |
| CryptoStandard.CbcWhole | Common/Crypto.c:1292-1328 | in a whole buffer the IV is the beginning of the seed and the whitening its bytes 8 to 15 |
| CryptoStandard.SeedParts | Common/Crypto.c:1005-1053 | the IV is seed and unit number; the whitening comes from four words, whose CRCs are added from outside in |
| CryptoNames.EAGetName | Common/Crypto.c:456-469 | names of ciphers from the last to the first, with hyphens |
| CryptoNames.Names | Common/Crypto.c:59-79 | the last cipher of the name of an algorithm is the one that enciphers first, for all thirteen |
| CryptoNames.EAGetByName | Common/Crypto.c:472-486 | the algorithm of a name; zero exactly if there is none |
| CryptoNames.NamesDiffer | Common/Crypto.c:472-486 | what EAGetName has written, EAGetByName reads: no two algorithms have one name |
| CryptoNames.ModesOf | Common/Crypto.c:59-79 | XTS needs blocks of 16 bytes, LRW and outer CBC blocks of one size; inner CBC is for the others |
| CryptoGf.XtsTweakIsProduct | Common/Xts.c:76-81 | the whitening of block j is the encrypted unit number times x^j, with the product of GfMul.c |
| CryptoGf.LrwTweakIsProduct | Common/Crypto.c:816-840 | the LRW tweak is the product of the second key and the big-endian index |
| Crypto.InitSectorIVAndWhitening | Common/Crypto.c:1005-1053 | IV and whitening of a data unit from the seed, its number and four CRCs |
| Crypto.DataUnit2LRWIndex | Common/Crypto.c:1341-1363 | shift and or in 64 bits: the unit number, less the header, times blocks per unit, plus one |
| Crypto.EncryptBuffer | Common/Crypto.c:1243-1336 | a whole buffer in every mode, in place; in CBC modes only as many bytes as the low 32 bits of its length say |
| Crypto.DecryptBuffer | Common/Crypto.c:1496-1588 | the inverse walk, in place |
| CryptoLength.WholeUnlessCut | Common/Crypto.c:1243-1336 | all of a buffer is encrypted, for all ciphers, keys and data, if and only if the mode is XTS or LRW or the length is below 2^32 |
| CryptoLength.NothingEncrypted | Common/Crypto.c:1292-1330 | in a CBC mode a buffer of 2^32 bytes stays as it is |
| Crypto.EncryptDataUnitsCurrentThread | Common/Crypto.c:1376-1489 | data units in every mode, in place; the rest of the buffer stays as it was |
| Crypto.DecryptDataUnitsCurrentThread | Common/Crypto.c:1599-1716 | the inverse walk, in place |
| CryptoLaws.UnitsInverse | Common/Crypto.c:1599-1716 | decrypting data units undoes encrypting them, for every algorithm, mode, number and length, given only that ciphers can be inverted |
| CryptoLaws.WholeInverse | Common/Crypto.c:1496-1588 | the same for EncryptBuffer and DecryptBuffer, with mixed block sizes |
| CryptoLaws.UnitsSplit | Common/Crypto.c:1376-1489 | splitting at a data unit and going on with the next number gives the same, in every mode |
| CryptoLaws.UnitsOneByOne | Common/Crypto.c:1376-1489 | one call on n data units is n calls on one |
| CryptoLaws.LrwIndexRunsOn | Common/Crypto.c:1341-1363 | the LRW index runs on from one data unit to the next, also around 2^64 |
| CryptoLaws.XtsNumberRunsOn | Common/Xts.c:85-195 | 32 XTS blocks after the first one of a unit comes the first one of the next unit |
| CryptoModes.BlocksSplit | Common/Crypto.c:816-868 | numbered blocks: numbers run on over a split at a block boundary |
| CryptoModes.BlocksUndone | Common/Crypto.c:908-962 | undoing each numbered block undoes the whole |
| CryptoModes.CbcUndone | Common/Crypto.c:1154-1235 | chaining and whitening can be undone |
| CryptoModes.CascadeUndone | Common/Crypto.c:1623-1644 | stages undone in the opposite order |
| GfBits128.GftIsReduction | Common/GfMul.c:260-268 | the entry of gft_le or gft_be for a byte is what eight multiplications by x make of it |
| GfBits64.GftIsReduction | Common/GfMul.c:270-278 | the same in GF(2^64) |
| GfBits128.ByteShift | Common/GfMul.c:344-350 | shifting by a byte and adding the entry multiplies by x^8 |
| GfBits128.ReverseTimesX | Common/GfMul.c:293-312 | reversal of bits takes mul_x to the shift of GfMul128Basic |
| GfMul128.MulX | Common/GfMul.c:293-312 | multiplication by x on memory words |
| GfMul128.MulX8 | Common/GfMul.c:344-350 | multiplication by x^8 on memory words |
| GfMul64.MulX | Common/GfMul.c:314-332 | multiplication by x on memory words |
| GfMul64.MulX8 | Common/GfMul.c:352-356 | multiplication by x^8 on memory words |
| GfMul128.CompileTable | Common/GfMul.c:475-519 | entry j of row i is the sum of the four powers that the bits of j choose |
| GfMul64.CompileTable | Common/GfMul.c:522-566 | the same for the table of 64-bit elements |
| GfMul128.MirrorBits | Common/GfMul.c:588-600 | all 128 bits in the opposite order |
| GfMul64.MirrorBits | Common/GfMul.c:602-614 | all 64 bits in the opposite order |
| GfMul128.TabInit | Common/GfMul.c:618-652 | the mirrored table holds the multiples of a by every half byte |
| GfMul64.TabInit | Common/GfMul.c:654-690 | the same in GF(2^64) |
| GfMul128.MulTab | Common/GfMul.c:697-719 | for all operands the table gives the shift-and-reduce product, also where zero bytes are skipped |
| GfMul64.MulTab | Common/GfMul.c:726-748 | the same in GF(2^64) |
| GfMul128.GfMulBasic | Common/GfMul.c:772-794 | shift and reduce, on bytes in place |
| GfMul64.GfMulBasic | Common/GfMul.c:812-836 | the same in GF(2^64) |
| GfMul128.SelfTestOnce | Common/GfMul.c:867-886 | a comparison of the self test succeeds for all operands, not only for 256 pairs |
| GfMul64.SelfTestOnce | Common/GfMul.c:849-865 | the same in GF(2^64) |
| GfFirst128.Multiply | Common/GfMul.c:396-434 | GfMul128: the product in the other order of bits, byte by byte with multiplication by x^8 between |
| GfFirst128.MultiplyTab | Common/GfMul.c:443-453 | GfMul128Tab with a compiled table computes what GfMul128 does |
| GfFirst128.MirroredProduct | Common/GfMul.c:588-600 | MirrorBits128 takes one multiplication to the other |
| FormatThread.BufferNotShared | Common/Format.c:883-898 | the formatting thread does not touch WriteThreadBuffer while a write reads it |
| FormatThread.InOrderOnce | Common/Format.c:971-1010 | buffers reach the device in order, none twice, none left out, byte for byte |
| FormatThread.TrueMeansWritten | Common/Format.c:985-1001 | TRUE from flush k means that all writes before its own succeeded |
| FormatThread.NoDeadlock | Common/Format.c:953-968 | no wait is for ever; stopping finds the token, also after failed flushes |
| FormatThread.RunsAreFinite | Common/Format.c:871-968 | no run has more steps than a bound computed from the buffers |
| FormatThread.AtTheEnd | Common/Format.c:953-968 | when both threads have ended, every accepted buffer was given to the device, and all arrived exactly if the last write succeeded |
| FormatThread.LastWriteIsUnchecked | Common/Format.c:990-1001 | a run in which all flushes return TRUE and the last write failed |
| FormatThread.ReachableInv | Common/Format.c:871-1010 | one token, in an event or with one of the threads; log, result and shared buffer agree with it |
| FormatWriter.Writer.WriteSector | Common/Format.c:831-855 | what was flushed and what is in the buffer together are the sectors so far, each under its own key |
| FormatWriter.Writer.Flush | Common/Format.c:971-1010 | afterwards the buffers of all TRUE flushes are the sectors so far, encrypted in place; without the write thread they are on the device |
| FormatWriter.EncryptedAtOnce | Common/Format.c:979-981 | encrypting a buffer of sectors at once is encrypting each with the unit number of its own offset |
| FormatWriter.SectorInPlace | Common/Format.c:979-981 | sector i lies at its offset from the first one, encrypted with data-unit number offset / 512 |
| FormatWriter.UnitOfOffset | Common/Format.c:979-981 | the data unit of a sector begins at its offset |
| FormatDevice.AllDelivered | Common/Format.c:953-1010 | if all flushes returned TRUE and both threads have ended, the device holds all buffers exactly if the last write succeeded |
| FormatDevice.Format | Common/Format.c:502-508 | FormatFat through the write thread: in every such run the device holds every sector in its place under its key, if and only if the last write succeeded |
| Fat.GetFatParams | Common/Fat.c:27-132 | type, cluster size, reserved sectors, FAT length and cluster count; everything fits on the volume |
| Fat.ChooseClusterSize | Common/Fat.c:33-71 | default and given cluster sizes; at most 128 sectors and few enough clusters |
| Fat.DefaultClusters | Common/Fat.c:38-57 | which volumes get which cluster by default |
| Fat.AlignFat32 | Common/Fat.c:100-118 | the loop ends after at most ten passes; with 512-byte sectors the data area is aligned on 4096 bytes |
| Fat.SubtractFats | Common/Fat.c:120 | cluster_count becomes the true count, or one more exactly if the remainders say so |
| Fat.CountCanBeTooHigh | Common/Fat.c:120 | a volume for which cluster_count is one too high |
| FatLayout.StepByOne | Common/Fat.c:104-111 | one more reserved sector moves the data area by one sector, up or down |
| FatLayout.StepsUpAfterDown | Common/Fat.c:104-111 | steps down are at least 128 passes apart |
| FatLayout.WalkingGoesOn | Common/Fat.c:100-118 | without a multiple of eight the loop cannot have made more than eight steps |
| FatEntries.CoversUnless | Common/Fat.c:100-120 | for all three types: the FAT has entries for all clusters unless it has no room for two more and nothing is subtracted from their number, or none for one more and at most one is subtracted |
| FatEntries.CoversByRemainder | Common/Fat.c:91-120 | FAT16 and FAT32: unless clusters are large and the entries end at, or one before, the end of a sector |
| FatEntries.LeastLength | Common/Fat.c:83-118 | the length of a FAT is the least number of sectors that hold all its entries |
| FatEntries.TooFewShortEntries | Common/Fat.c:85-120 | a volume with FAT12 whose FAT lacks entries for two clusters |
| FatEntries.TooFewEntries | Common/Fat.c:91-120 | the same with FAT16 |
| FatEntries.TypeIsRight | Common/Fat.c:85-120 | the type fits the final cluster count exactly if what the FATs take does not bring the count below the least one of the type |
| FatEntries.TypeCanBeWrong | Common/Fat.c:91-120 | a volume that gets FAT16 with fewer clusters than FAT16 has |
| FormatFat.FormatFat | Common/Fat.c:256-445 | a full format sends exactly num_sectors sectors, a quick one reserved + 2 fat_length + root directory; these are under the real key, the rest under the temporary one; without the write thread they are on the device |
| FormatFat.PutReserved | Common/Fat.c:286-331 | boot sector, FSInfo, their copies and blank sectors up to the end of the reserved area |
| FormatFat.PutFats | Common/Fat.c:334-376 | both FATs, each beginning with its signature |
| FormatFat.FirstEntries | Common/Fat.c:334-376 | the entries each FAT begins with, for 12, 16 and 32 bits; the others are free |
| FormatFat.ReservedSectors | Common/Fat.c:286-331 | what is in the reserved sectors of FAT32, and the signature 55 AA |
| FormatFat.Empty | Common/Fat.c:393-394 | the buffer is empty before the key changes |
| FormatFat.LayoutFits | Common/Fat.c:421 | what GetFatParams computes leaves a number of data sectors that is not negative |
| Keyfiles.KeyFileProcess | Common/Keyfiles.c:128-214 | the pool gains the contribution of the bytes delivered, however they are divided among reads; when it returns TRUE |
| Keyfiles.MixToken | Common/Keyfiles.c:257-275 | a token with the same bytes contributes the same |
| Keyfiles.ByteContributes | Common/Keyfiles.c:175-189 | byte number n adds the CRC of the first n + 1 bytes to the pool at position 4 n modulo 64, its most significant byte first, each byte modulo 256 |
| Keyfiles.CutOff | Common/Keyfiles.c:187-188 | bytes after the first megabyte do not matter |
| Keyfiles.OneByteKeyfile | Common/Keyfiles.c:175-189 | the keyfile 61 contributes 17 48 41 BC at the beginning of the pool |
| Keyfiles.OneByteKeyfilePassword | Common/Keyfiles.c:217-387 | with this keyfile the empty password becomes 17 48 41 BC and zeros, and the password of the one byte 70 becomes 87 48 41 BC and zeros |
| Keyfiles.SameKeyfileTwice | Common/Keyfiles.c:217-387 | the same keyfile twice contributes twice: keyfiles do not cancel out |
| Keyfiles.MixedIsPlus | Common/Keyfiles.c:177-185 | what a keyfile adds does not depend on what is in the pool |
| Keyfiles.OrderIrrelevant | Common/Keyfiles.c:233-369 | the pool is the same for every order of the keyfiles |
| Keyfiles.SamePassword | Common/Keyfiles.c:217-387 | the same list in another order gives the same password |
| Keyfiles.KeyFilesApply | Common/Keyfiles.c:217-387 | password and status for any list of files, directories and tokens, with every error |
| Keyfiles.ApplyFolder | Common/Keyfiles.c:296-360 | the files of a directory; hidden files and subdirectories are skipped |
| Keyfiles.MixIntoPassword | Common/Keyfiles.c:371-382 | the pool is added to the password as if that were filled up with zeros |
| Xml.RoundTrip | Common/Xml.c:134-157 | replacing entities undoes quoting, also for text that looks like entities |
| Xml.Entities | Common/Xml.c:164-207 | which entity stands for which of the three characters; other characters stay |
| Xml.QuotedAppend | Common/Xml.c:164-207 | text is quoted character by character |
| Xml.QuotedTextReadsBack | Common/Xml.c:116-161 | an element with a quoted body is accepted if and only if the quoted text fits, and then the text is the original one |
| Xml.QuotingCanFail | Common/Xml.c:164-207 | text that is refused although it fits with its terminator |
| Xml.XmlQuoteText | Common/Xml.c:164-207 | accepts exactly text whose quoted form and terminator fit, with one character to spare if it ends with a special one; nothing is written beyond the limit |
| Xml.XmlGetNodeText | Common/Xml.c:116-161 | the text between the first bracket that closes the tag and the next one that opens, with entities replaced; refused exactly if there is none or it is too long |
| Xml.BufferSuffices | Common/Xml.c:116-161 | a destination of xmlTextSize characters has room for accepted text and its terminator if and only if the body is shorter, or contains an entity |
| Xml.BufferTooSmall | Common/Xml.c:131-158 | text that is accepted for a destination in which its terminator has no place |
| Xml.XmlFindElement | Common/Xml.c:41-55 | the first element of a name |
| Xml.XmlNextNode | Common/Xml.c:26-38 | the next tag that is not a closing one |
| Xml.BeginsWith | Common/Xml.c:14-23 | whether a string begins with another |
| Crc.GetCrc32 | Common/Crc.c:55-65 | the table form computes CRC-32 of section 8 of RFC 1952 |
| Crc.CheckValue | Common/Crc.c:55-65 | the published check value of CRC-32, cbf43926 for the digits 1 to 9 |
| Crc.GetCrc32Bitwise | Common/Crc.c:102-120 | the bitwise form computes the same |
| Crc.Crc32Int | Common/Crc.c:67-76 | four bytes, unrolled |
| Crc.TableIsSteps | Common/Crc.c:19-53 | every entry of the table is eight steps of the bitwise form |
| Crc.BurstDetected | Common/Crc.c:55-65 | strings of one length that differ only within four consecutive bytes have different CRCs |

## Left out

- Starting and stopping the pool, and the stop path, which abandons work: the model is a running pool.
- Fairness of the scheduler: the pool never deadlocks and every run is finite, so that no fairness is needed for requests to finish.
- Wait functions, event sets and thread creation that fail, in the pool and in the write thread; and the moment in StartFormatWriteThread before WriteThreadRunning is set.
- All key derivations share one completion event, one count and one event for outstanding items, as in Volumes.c:174-255; separate ones for separate callers, and the waits of those callers, are not modelled.
- Key derivation itself: a worker writes some function of the initial contents into the caller's buffer.
- Failing malloc in `huft_build` and the table initialisers, and freeing of tables; the ZLIB branch.
- `InflateHuft.HuftBuild`: the arrays c, x, v, u and l are sequences that are reassigned, and tables are numbered instead of linked by pointers.
- `Inflate.Inflater.DecompressDeflatedData`: nothing is said about the output for malformed data, and two spare bytes after the last bit of the stream are required; they suffice for look-ups that ask for bits beyond the last code.
- `Inflate.Inflater.CopyBytes`: where memcpy would be called with overlapping areas, all reads come before the writes; distances beyond the output so far are not checked by the program, and nothing is promised for them.
- Block ciphers, their key schedules and hardware AES: any functions with the stated inverse. The choice of the parallel XTS path is a parameter.
- The tables in gf_ctx are a function of the index in `CryptoSpec.CryptoInfo`; `GfMul128.MulTab` and `GfMul64.MulTab` compute it, and `CryptoGf.TablesOf` ties it to the key.
- Misaligned buffers in `GfMul.c`, and the two unused words of each entry of gf_t4k.
- Boot-loader variants of the modes, algorithms with one cipher only, and everything that selects algorithms and modes.
- The bytes of boot sector and FSInfo sector, which are parameters of `FormatFat.FormatFat`.
- FormatNoFs, quick format as NTFS, volume headers, and everything else that TCFormatVolume does around FormatFat.
- `Fat.GetFatParams`: at most 0xFFFF000 clusters and the least volume size for FAT are required, so that values fit the program's integers.
- `FormatWriter.Writer.Flush`: a failed write or refused request leaves the writer in a state about which nothing is said; formatting ends then.
- File times, directory enumeration and messages for keyfiles; reading a token.
- `Xml.XmlGetNodeText`: the destination has room for accepted text and its terminator; what happens otherwise is outside the model, and `Xml.BufferSuffices` says when a destination of the given size has.
- Attributes in XML (XmlGetAttributeText, XmlFindElementByAttributeValue) and the writers of headers and footers: more of the same searching.
- Password-based key derivation, caches, wiping, byte order helpers and random numbers: short loops over functions that are not part of this model.
