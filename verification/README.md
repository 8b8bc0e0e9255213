# Soft-HDLC and its neighbours

This project models the soft-HDLC engine of the channel driver (`src/drivers/cd.other.c`) with its stand-alone
companion (`src/drivers/crc.c`), and five smaller pieces of the same driver family: the message queue
(`bufq.h`), the copy loops and nested lists of the channel multiplex (`ch.c`), the stream lock (`clns-ip.c`) and
the echo-canceller disable detector (`ecdis.h`, `biquad.h`).

The engine is a transmitter and a receiver for bit-stuffed frames in the style of ISO 3309 and section 5.2 of RFC
1662. Each layer is proved against a bit-at-a-time meaning, and the layers are composed:

- `Bits`, `Crc`, `CrcTable`, `AddCrc`: words as strings of bits, the check register one bit at a time, the
  block-check table as the driver fills and uses it, and the two stand-alone forms that append the check octets.
- `Stuffing` (with `TxTable` and `PackedEntry`): zero insertion, its inverse, and the byte-indexed tables.
- `Deleter`, `RxTable`: a flag-and-zero-deletion machine that only counts ones, the driver's fourteen states, the
  lines on which they differ, and the table entry for a whole sample.
- `Line`, `LineRun`: a line as a string of marks, flags and frames, and what the machine makes of every prefix.
- `Receiving`, `RoundTrip`, `AnyLine`, `Resync`: the receive block sample by sample and exactly when it is the
  machine, over whole lines of the transmitter, over any line, and back in step after any line.
- `Reports`: which frames are handed up on any line and what the check has to do with it, the cause reported, and
  how octets are counted.
- `Holding`: repeat compression, what goes up, and what becomes of each buffer.
- `Transmitting`, `TxEngine`, `Repeating`: the transmit block with its registers, queue and repeat buffer, as a
  class; and what the buffer pointers do to a message that is sent again.
- `RxEngine`: the receive block with its registers, buffers and repeat compression, as a class.
- `Loopback`: the two classes back to back, any blocks, any arrivals.
- `Options`, `Sequences`: what several of them share.
- `BufQ`, `ChannelCopy`, `ChannelLists`, `TryLock`, `Biquad`, `EchoDetector`: the other pieces.

Registers that the source shifts and masks are numbers here, with the 32-bit cut written out where it can bite; a
register that holds bits not yet sent or not yet stored has a ghost string of those bits beside it. The check
register is a string of sixteen bits, lowest first, tied to the number by `Val`.

## What the source turns out to do

- The transmitter sends the check octets plain (`src/drivers/cd.other.c:1293`, `:1300`) and the receiver expects
  them complemented (`:1496`). Whether a side complements is a parameter of each side. With one convention every
  frame in the size limits is handed up; as the driver stands every frame is a check error. Both are proved
  (`Loopback.Run`, `RoundTrip.FramesDelivered`, `RoundTrip.NoFrameDelivered`).
- States 7 and 13 go to state 12 on another one (`src/drivers/cd.other.c:1776-1780`, `:1860-1865`), so from seven
  ones on the states only know whether a run is odd or even, and an even run of eight or more ones and a zero is
  taken for a flag. The states and a machine that counts ones agree at every point of a line if and only if there
  is no such run on it (`Deleter.StatesCountOnes`, `Deleter.FlagForged`).
- A sample is read by its table entry as a whole. In a frame that is the same as reading its bits if and only if
  it does not hold both a flag and an abort (a flag and seven ones in one sample lose the flag,
  `Receiving.FlagThenOnesLost`, `Resync.FlagLost`) and the frame keeps to the limit. Between frames the receiver
  starts a frame with whatever bits the sample put out, even when a flag in the same sample has already closed
  them (`src/drivers/cd.other.c:1566-1568`, `:1517-1525`; `Receiving.RuntMisread`, `Resync.RuntReceived`), and
  that is the only failure there; it needs a body shorter than eight bits, which no frame of the transmitter has.
  While hunting there is none (`Receiving.SampleExactly`, `AnyLine.RunExactly`). Out of step, the next sample with
  a flag or an abort brings it back, unless that is such a runt (`Resync.Regains`, `Resync.FramesAfterFlag`).
- After a count has gone up the receiver keeps its pointer to the message it has just sent
  (`src/drivers/cd.other.c:1320-1325`), and the next frame or error that is not counted sends or frees it again.
  `cd_error_ind` returns nought when it has succeeded (`:705`) and its caller then frees the message it sent
  (`:1401-1403`), so every error with octets collected gives its buffer away twice. `Holding.OnceExactly` says
  exactly when each buffer is given away once. No indication is lost or out of order for all that, as long as the
  memory keeps its contents (`Holding.Lossless`).
- A repeat rewinds the first buffer of a message, and only that, to its base, not to where the message began
  (`src/drivers/cd.other.c:1171`), and the next buffer's first octet is read before its pointers are compared
  (`:1282-1285`). So a repeat sends what lies ahead of the message as well, and of each further buffer one octet
  from behind what it held. `Repeating.SentExactly` and `Repeating.RepeatsExactly` say exactly when a message, and
  all its repeats, go out as they are; of a message in one buffer that is when it begins at the base
  (`Repeating.OneBufferExactly`). `RepeatSendsHead`, `RepeatTruncates` and `SecondRepeatDiffers` are inputs that fail.
- `cd_rx_buffer` refuses to count a frame longer than the header (`hlen < len`, `src/drivers/cd.other.c:1345`), so
  only repeated frames of exactly the header length are compressed, although frames up to two octets longer are
  kept for comparison. Only the first block of such a frame is kept, so with a least length of sixty-four a frame can
  be counted as a repeat of a longer one (`Holding.PrefixCounted`).
- `table_value` never shifts its input (`src/drivers/crc.c:232-244`), so it gives the driver's entry exactly for the
  octets 0 and 255 (`PackedEntry.PackedAgrees`).
- The alignment loop of `addcrc2` leaves its count one below nought when the buffer ends before the alignment
  (`src/drivers/crc.c:111`); it is right exactly when the length covers the gap (`AddCrc.Align`, `AddCrc.AddCrc2`).
- `__bufq_supply` counts a block together with those behind it and empties them only afterwards
  (`src/drivers/bufq.h:372-383`): the octet count comes out too high by a known sum, until the queue is next empty.
- The copy loops of `ch.c` start at the channel's span and stop below its span count, so a channel on one span moves
  nothing; they move everything exactly when that span is the first, or there is nothing to move
  (`ChannelCopy.MovesAllExactly`).
- The notch filter never overflows 32 bits, whatever 16-bit samples it is given, but its 16-bit result is cut for
  some runs of samples from size 19332 on, and for none below (`Biquad.FitsExactly`).

## Model

| member | source | states |
|---|---|---|
| Loopback.Run | src/drivers/cd.other.c:1207-1596 | for every arrival pattern of messages, flag style, sample size 7 or 8 and block size, the receive block reaches the end of a frame once per message, in order, holding the message and exactly the sixteen check bits sent; nothing else is reported; the indications sent up, expanded, with the copies held, are those reports; all messages are through after idle blocks of as many bits as the frames, the register and a flag; the verdicts follow the two conventions |
| Loopback.RunRepeating | src/drivers/cd.other.c:1207-1596 | with repeating: the line carries the messages in order and nothing else but the fill that is due: marks before the first; then the message before, again and again, if it has from the least length to two octets more, and flags if not; the receiver ends one frame for each message and repeat that a whole flag has followed, in order, each with its check bits, and reports nothing else |
| Loopback.Round | src/drivers/cd.other.c:1207-1596 | one round keeps the engines linked, moves the line on by one block, and without repeating lets the committed line run ahead by no more than the register and the bits of the new messages |
| Loopback.Rounds | src/drivers/cd.other.c:1207-1596 | over any rounds the engines stay linked, and without repeating the bits committed and not yet sent never exceed the register and the bits of all the messages |
| Loopback.IdleRounds | src/drivers/cd.other.c:1207-1311 | with nothing more queued the line only gets the fill that is due |
| Loopback.Conclude | src/drivers/cd.other.c:1448-1525 | from the linked engines: the frames received are a prefix of the messages accepted, and all of them once a whole flag has followed the last |
| Loopback.FramesReceived | src/drivers/cd.other.c:1448-1525 | from the linked engines, repeating or not: exactly the frames of the line that a whole flag has followed, within the bits sent |
| Loopback.FlagsDeliverAll | src/drivers/cd.other.c:1249-1254 | a whole idle flag after the last frame delivers every frame |
| Loopback.Verdicts | src/drivers/cd.other.c:1278-1302 | one convention: every acceptable message is handed up; different conventions: every one is a check error |
| Loopback.SentIsPrefix | src/drivers/cd.other.c:1207-1311 | everything sent is a prefix of the line made of the accepted messages in order and fill |
| Loopback.FramesAreMessages | src/drivers/cd.other.c:1219-1226 | without repeating, the frames on the line are the messages accepted, in order |
| RoundTrip.FramesReturn | src/drivers/cd.other.c:1448-1525 | fed any prefix of a line cut into samples and blocks in any way, the receive block ends exactly the frames a whole flag has followed, each with its message and check bits |
| RoundTrip.FramesDelivered | src/drivers/cd.other.c:1482-1509 | with one convention the events of the run are those frames, all good |
| RoundTrip.NoFrameDelivered | src/drivers/cd.other.c:1496 | with the conventions as coded every one of those frames is a check error and none is good |
| RoundTrip.CheckVerdict | src/drivers/cd.other.c:1493-1507 | what becomes of a transmitted frame: check error if the conventions differ, too short, refused for its length field, or good |
| RoundTrip.RunOnLine | src/drivers/cd.other.c:1448-1596 | after any blocks of the line the receiver is the bit machine after the same bits, and has reported one outcome per frame |
| AnyLine.RunExactly | src/drivers/cd.other.c:1448-1596 | a fresh receiver given any octets in any blocks stands where the bit machine stands after every octet if and only if every sample meets those conditions |
| AnyLine.BlockExactly | src/drivers/cd.other.c:1448-1596 | the same for one block from any state |
| AnyLine.LineIsRead | src/drivers/cd.other.c:1448-1596 | when also no flag is forged, the bodies received are those that counting ones finds, and it hunts exactly when counting ones is out of step |
| AnyLine.Listen | src/drivers/cd.other.c:1448-1596 | the receive engine, fresh, given any blocks: it is the sample machine; what went up, expanded, and the copies held are what that machine reports; buffers are given away once exactly when no report gives one away again |
| Resync.FramesAfterNoise | src/drivers/cd.other.c:1448-1596 | after any octets whatever, in any blocks, a line that begins with a flag or a frame is received, every frame that a whole flag has followed with its check bits, unless its first flag makes a runt while the receiver takes itself to be between frames |
| Resync.FramesAfterFlag | src/drivers/cd.other.c:1448-1596 | with an idle flag before the first frame it is received without any condition |
| Resync.Regains | src/drivers/cd.other.c:1459-1592 | whatever the receiver holds and in whatever mode, one sample with a flag or an abort in it brings it in step with the line, unless it is between frames and the sample makes a runt |
| Resync.StaysInStep | src/drivers/cd.other.c:1459-1592 | faithful samples keep it in step, whatever was received before |
| Resync.AfterRegain | src/drivers/cd.other.c:1448-1596 | from such a sample on the frames of the line are received |
| Resync.AnyFlag | src/drivers/cd.other.c:1669-1878 | a whole flag is found from every state of the table |
| Resync.CoreRun | src/drivers/cd.other.c:1459-1592 | what is received does not depend on how the octets are cut into blocks, nor on whether they could be handed up |
| Resync.RuntReceived | src/drivers/cd.other.c:1517-1568 | three octets that make a fresh receiver collect a frame out of bits a flag had closed |
| Resync.FlagLost | src/drivers/cd.other.c:1859-1872 | three octets that close a frame of one bit on the line, of which a fresh receiver reports an abort and no frame |
| Reports.GoodIsSealed | src/drivers/cd.other.c:1448-1525 | whatever is on the line: every frame handed up was collected with sixteen bits behind it that make the remainder good, has a length in the limits and its length field right, and is no transmitted frame with an error burst of at most sixteen bits in it |
| Reports.HandedUpExactly | src/drivers/cd.other.c:1448-1525 | over any line, in any blocks: the frames handed up are exactly the frames ended that pass every test, in order, in the blocks that the user could take |
| Reports.VerdictTells | src/drivers/cd.other.c:1493-1507 | each verdict if and only if: not sixteen odd bits; the check fails; too short; too long or a wrong length field; everything right and the user congested; everything right |
| Reports.BurstIsCrcError | src/drivers/cd.other.c:1496-1496 | a transmitted frame received with an error burst of at most sixteen bits is a check error |
| Reports.KnownFrame | src/drivers/cd.other.c:1496-1496 | behind the octets 01 02 03 the word 62fb passes and no other |
| Reports.StepAdds | src/drivers/cd.other.c:1459-1592 | a sample adds nothing, or one report; with the end of a frame its verdict, and otherwise an error with the cause that is kept from then on |
| Reports.ErrIsLast | src/drivers/cd.other.c:1453-1592 | the cause kept within a block is that of the last error reported in it |
| Reports.OctetsCounted | src/drivers/cd.other.c:1574-1583 | while hunting, with octet counting on: one error for every N octets, with the cause kept and nothing collected, and the rest carried over; with it off, none |
| Reports.CountBegins | src/drivers/cd.other.c:1559-1571 | the octets are counted from where hunting began |
| RoundTrip.SampleOnLine | src/drivers/cd.other.c:1449-1592 | every sample of a transmitter's line meets the conditions under which a sample is its bits |
| RoundTrip.EndIsFrame | src/drivers/cd.other.c:1493-1497 | a held body equal to a frame's bits is that frame's octets and sixteen check bits |
| Receiving.SyncExactly | src/drivers/cd.other.c:1566-1572 | between frames the switch follows the bit machine if and only if no flag in the sample closes bits held from before it, whatever else is in the sample, aborts included |
| Receiving.SampleExactly | src/drivers/cd.other.c:1459-1592 | one sample through the switch is its bits through the bit machine if and only if: hunting, always; between frames, when no runt is made; in a frame, when it does not hold both a flag and an abort and, holding neither, keeps the frame in the limit |
| Receiving.MofExactly | src/drivers/cd.other.c:1468-1565 | the case of a frame being collected, with end of frame, abort and frame too long |
| Receiving.HuntExactly | src/drivers/cd.other.c:1573-1586 | hunting, every sample on every line |
| Receiving.StepAbort | src/drivers/cd.other.c:1539-1565 | an abort without a flag gives the frame up with what was collected and reports it; with a flag in the same sample one frame too few or too many is ended |
| Receiving.DrainLong | src/drivers/cd.other.c:1477-1491 | a frame beyond the limit is always called too long, with its first octets, one more than the limit |
| Receiving.QuietIsFaithful | src/drivers/cd.other.c:1459-1592 | no seven ones, a frame in the limit and no closed body below eight bits are enough |
| Receiving.RuntMisread | src/drivers/cd.other.c:1517-1568 | a concrete sample that starts a frame out of bits a flag has already closed |
| Receiving.FlagThenOnesLost | src/drivers/cd.other.c:1859-1872 | a flag and seven ones in one sample end the frame as an abort and not as a frame |
| Receiving.DrainKeeps | src/drivers/cd.other.c:1477-1491 | draining loses no bit, keeps their order, leaves at most sixteen and never calls a frame in the limit too long |
| Receiving.FlaggedOutput | src/drivers/cd.other.c:1473-1474 | a sample that ends with a flag puts out at most seven bits |
| Receiving.LengthTells | src/drivers/cd.other.c:1414-1431 | the length field test in both forms, with the bits written out |
| Receiving.LengthsRead | src/drivers/cd.other.c:1414-1431 | units with 5, 70 and 300 octets |
| Receiving.StepLong | src/drivers/cd.other.c:1477-1491 | a frame that grows beyond the limit is reported as such with what was collected, and hunting begins |
| RxEngine.Receiver.RxBlock | src/drivers/cd.other.c:1448-1596 | the receive block with its registers and buffers is the sample machine over the block |
| RxEngine.Receiver.RxSample | src/drivers/cd.other.c:1459-1592 | one sample through the table and the switch is one step of the sample machine |
| RxEngine.Receiver.MiddleOfFrame | src/drivers/cd.other.c:1468-1492 | mid frame: the entry is appended, then end of frame, abort, or draining, in that order of precedence |
| RxEngine.Receiver.EndOfFrame | src/drivers/cd.other.c:1493-1525 | the end of a frame: verdict, hand up or report, and the start of the next |
| RxEngine.Receiver.CheckFrame | src/drivers/cd.other.c:1493-1506 | the tests at the end of a frame in the driver's order, on its registers |
| RxEngine.CheckMatches | src/drivers/cd.other.c:1496-1497 | the word comparison holds if and only if the held bits are the check bits of the octets collected |
| RxEngine.Receiver.DrainOctets | src/drivers/cd.other.c:1477-1491 | from at most 28 bits the loop stores whole octets in order, folds each into the check register, and leaves at most sixteen bits unless the frame is too long |
| RxEngine.Receiver.Append | src/drivers/cd.other.c:1469-1472 | the entry's bits go behind those held and the register never passes 32 bits |
| RxEngine.Receiver.StoreOctet | src/drivers/cd.other.c:1478-1484 | an octet goes behind those collected, in a new buffer when the one in hand holds sixty-four |
| RxEngine.Receiver.FoldOctet | src/drivers/cd.other.c:1482-1483 | the table step keeps the register equal to the check of the octets collected |
| RxEngine.Receiver.StartAfresh | src/drivers/cd.other.c:1509-1525 | the registers of a new frame |
| RxEngine.Receiver.BeginCollecting | src/drivers/cd.other.c:1517-1525 | a frame begins with the bits behind the flag |
| RxEngine.Receiver.GiveUp | src/drivers/cd.other.c:1558-1565 | an abandoned frame is reported with what was collected and the engine hunts |
| RxEngine.Receiver.CountOctet | src/drivers/cd.other.c:1574-1583 | octet counting while hunting: one report for every N octets |
| RxEngine.Receiver.LenCheck | src/drivers/cd.other.c:1414-1431 | the length field test: in the short form the low six bits of the last header octet, with 63 for all from 63 on; in the long form nine bits |
| RxEngine.Receiver.RxBuffer | src/drivers/cd.other.c:1335-1369 | a good frame is counted and freed, or sent up after the frames counted so far, with its first block held for comparison if it is of that size; what went up, what is held and what became of every buffer is stated |
| RxEngine.Receiver.Matches | src/drivers/cd.other.c:1345-1349 | a frame is counted exactly when it equals the one held, is of the header length, and at most fifty have been counted before |
| RxEngine.Receiver.RxError | src/drivers/cd.other.c:1392-1407 | an error goes up behind the frames counted before it, with what was collected; what is held afterwards and what became of the buffers is stated, the one that went up and was freed among them |
| RxEngine.Receiver.DeliverRepeat | src/drivers/cd.other.c:1317-1328 | the counted frames go up as one indication and the pointer to the frame stays; with nothing counted the frame is freed and the pointer cleared |
| Holding.Lossless | src/drivers/cd.other.c:1317-1407 | over every sequence of good frames and errors, what went up, expanded by the counts, and then the copies held are those frames and errors in order |
| Holding.RunOfCopies | src/drivers/cd.other.c:1335-1369 | the same frame again and again goes up once, then every fifty-two times a count of fifty-one and the frame itself; the rest is held |
| Holding.NoneCounted | src/drivers/cd.other.c:1335-1369 | without compression, or when no frame is of the least length, everything goes up by itself |
| Holding.PrefixCounted | src/drivers/cd.other.c:1345-1359 | with a least length of sixty-four, a frame of sixty-five octets and then its first sixty-four alone is counted as the same again |
| Holding.OnceExactly | src/drivers/cd.other.c:1317-1407 | over every such sequence each buffer is sent up or freed at most once if and only if no error comes with octets collected and none that is not counted comes while the held pointer is to a buffer given away |
| Holding.HandleGives | src/drivers/cd.other.c:1317-1407 | one frame or error gives a buffer away again exactly in those cases, and leaves such a pointer exactly when a count went up and no frame was held in its place, or it was counted on one; every buffer is given away or held |
| Holding.HeldGivenTwice | src/drivers/cd.other.c:1320-1327 | a frame, the same again and two errors: one buffer goes up and is freed; with the frame once more between the errors it goes up twice |
| Holding.ErrorGivenTwice | src/drivers/cd.other.c:1401-1403 | an error with one octet collected: the buffer goes up and is freed |
| RxEngine.Receiver.Dues | src/drivers/cd.other.c:1317-1407 | both, of the engine in any state |
| RxEngine.Receiver.SameOctets | src/drivers/cd.other.c:1347-1349 | octet-by-octet comparison is equality |
| RxEngine.Receiver.LinkBuffer | src/drivers/cd.other.c:1376-1385 | linking a buffer keeps the octets in order |
| RxEngine.Receiver.constructor | src/drivers/cd.other.c:1449-1457 | a fresh receiver hunts and has sent nothing up |
| RxTable.EntryIsBits | src/drivers/cd.other.c:1669-1878 | an entry applied at once equals its bits through the bit machine, when no abort is in it |
| RxTable.HuntingEntryIsBits | src/drivers/cd.other.c:1669-1878 | the same on any line while hunting |
| RxTable.EntryTells | src/drivers/cd.other.c:1669-1878 | what the entry of any sample says of an open frame: without an abort the line read as a whole; an abort drops the frame; a flag and then an abort lose the flag; an abort and then a flag open a new frame |
| RxTable.Conservation | src/drivers/cd.other.c:1669-1878 | away from flags, bits put out, bits pending in the state and zeros deleted add up to the bits pending before and the bits consumed |
| RxTable.OutputBound | src/drivers/cd.other.c:1669-1878 | no entry puts out more than twelve bits |
| RxTable.FeedQuiet | src/drivers/cd.other.c:1775-1788 | an entry hunts or idles only if its bits abort |
| RxTable.EntryHunts | src/drivers/cd.other.c:1775-1875 | while no flag comes, an entry says hunt exactly when a one comes in state 7 or 13, and idle exactly when one comes in state 13 |
| RxTable.RxTableValueN | src/drivers/cd.other.c:1669-1878 | the table function's words and flags are those of the bits fed one by one |
| RxTable.RxStep | src/drivers/cd.other.c:1677-1875 | one turn of its loop |
| RxTable.PutPending | src/drivers/cd.other.c:1691-1858 | the delayed bits of a state are put into the word |
| RxTable.PutOnes | src/drivers/cd.other.c:1789-1858 | a run of ones is put into the word |
| RxTable.RxTableGenerate | src/drivers/cd.other.c:1919-1936 | every entry of the 7- and the 8-bit table is right |
| RxTable.LookUp | src/drivers/cd.other.c:1462-1465 | a look-up finds the entry of the state and the sample |
| Deleter.StatesCountOnes | src/drivers/cd.other.c:1669-1878 | the fourteen states with delayed output agree with a machine that counts ones, in bits, flags and frame ends and at every point of a line, if and only if no even run of eight or more ones on it is followed by a zero |
| Deleter.ShortRunsAgree | src/drivers/cd.other.c:1669-1878 | in particular they agree on every line without seven ones |
| Deleter.RunMakesFlag | src/drivers/cd.other.c:1775-1872 | a run of ones and a zero complete a flag in the states if and only if the run is even and at least six, where only six make one |
| Deleter.FlagForged | src/drivers/cd.other.c:1859-1872 | eight ones and a zero are taken for a flag |
| Deleter.AgreeStep | src/drivers/cd.other.c:1775-1872 | one bit keeps the machines together if and only if it does not forge a flag |
| Deleter.NoAbortIsShortRuns | src/drivers/cd.other.c:1775-1788 | a line has no abort if and only if it has no run of seven ones, from every state |
| Deleter.EndsGrow | src/drivers/cd.other.c:1669-1878 | frame ends are never taken back |
| Deleter.AgreeFlag | src/drivers/cd.other.c:1781-1787 | six ones and a zero end the body in both machines, with the flag's own bits dropped |
| Deleter.AgreeZero | src/drivers/cd.other.c:1678-1774 | a zero elsewhere keeps the two machines together |
| Deleter.AgreeOne | src/drivers/cd.other.c:1678-1871 | a one before the sixth keeps the two machines together |
| LineRun.WholeLine | src/drivers/cd.other.c:1242-1303 | over a whole line of marks, flags and frames the bit machine never aborts, stays in bounds and ends exactly the frames |
| LineRun.PrefixEnds | src/drivers/cd.other.c:1242-1303 | after any prefix, cut anywhere, the bodies ended are those a whole flag has followed |
| LineRun.ItemRun | src/drivers/cd.other.c:1255-1303 | one item: the body left open before it is ended by its first flag and its own is left open |
| LineRun.MoreFlags | src/drivers/cd.other.c:1258-1276 | further opening flags, shared zero or not, leave nothing behind |
| LineRun.BodyStretch | src/drivers/cd.other.c:1281-1303 | a stuffed body reads back as the body |
| LineRun.FlagFromHunt | src/drivers/cd.other.c:1573-1586 | from any hunting state the first flag synchronises |
| Line.RefStuffed | src/drivers/cd.other.c:1633-1655 | reading a stuffed string adds exactly the string to what is held |
| Line.RefFlag | src/drivers/cd.other.c:1781-1787 | a flag at a boundary closes what is held |
| TxEngine.Transmitter.TxBlock | src/drivers/cd.other.c:1207-1311 | a block of exactly the block size; the line grows by exactly its samples; the line committed to grows only with the queue empty, and only by marks before the first message, then by the last message again if repeating is on and it has from the least length to two octets more, and by flags if not; registers, ownership and account are kept |
| TxEngine.Transmitter.FillMore | src/drivers/cd.other.c:1230-1306 | one pass of the loop keeps that account |
| TxEngine.Transmitter.Pass | src/drivers/cd.other.c:1230-1306 | at most one octet out a pass, none only when the check's second octet was just added |
| TxEngine.Transmitter.Step | src/drivers/cd.other.c:1242-1304 | one turn of the switch in each of the five modes |
| TxEngine.Transmitter.StepIdle | src/drivers/cd.other.c:1243-1254 | mark idle or flag idle |
| TxEngine.Transmitter.StepBof | src/drivers/cd.other.c:1255-1280 | the opening flags of each style, and the fresh state and check register |
| TxEngine.Transmitter.StepMof | src/drivers/cd.other.c:1281-1296 | the next octet stuffed and folded, or the first check octet |
| TxEngine.Transmitter.FirstCheck | src/drivers/cd.other.c:1290-1295 | the low check octet stuffed behind the message |
| TxEngine.Transmitter.StepBcc | src/drivers/cd.other.c:1297-1303 | the high check octet ends the frame |
| TxEngine.Transmitter.Drain | src/drivers/cd.other.c:1233-1240 | one sample off the register, reversed, in order |
| TxEngine.Transmitter.PutBits | src/drivers/cd.other.c:1246-1274 | bits go behind those held and none is lost up to 31 |
| TxEngine.Transmitter.BitStuff | src/drivers/cd.other.c:1185-1193 | the octet goes into the register zero-inserted; from below a sample the register holds at most 17 bits |
| TxEngine.Transmitter.Fold | src/drivers/cd.other.c:1287 | the table step is the check register over the octet's bits |
| TxEngine.Transmitter.NextMessage | src/drivers/cd.other.c:1219-1226 | the message just sent is released unless kept for repeating, and the next, or the repeat, taken |
| TxEngine.Transmitter.PickUp | src/drivers/cd.other.c:1222-1224 | release and pick up keep every message owned once |
| TxEngine.Transmitter.TxBuffer | src/drivers/cd.other.c:1139-1178 | the first data entry comes off the queue, others stay, and it is kept if repeating is on and it has from the least length to two octets more; else the kept message again, rewound to the base of its buffer, and the repeats counted; what was kept is released exactly when another is taken |
| TxEngine.Transmitter.FindMessage | src/drivers/cd.other.c:1148-1163 | finds the first data entry or none |
| TxEngine.Transmitter.EachMessageOnce | src/drivers/cd.other.c:1139-1226 | in every state the accepted messages are those released, the one in hand and those queued; none is released twice or while it can still be sent; the kept one is the one in hand |
| Transmitting.FillerIsDue | src/drivers/cd.other.c:1166-1174 | what fills the line when nothing is queued, with the length bounds written out |
| Repeating.Send | src/drivers/cd.other.c:1281-1289 | the octets drawn from a message buffer by buffer, one read ahead of the comparison at each change of buffer, and where the read pointers are left |
| Repeating.SentExactly | src/drivers/cd.other.c:1282-1285 | a message goes out as it is if and only if none of its continuation buffers is empty |
| Repeating.RepeatSends | src/drivers/cd.other.c:1170-1174 | each repeat sends all of the first buffer from its base, and one octet for each continuation buffer, one further behind it each time; where that octet stands is written out |
| Repeating.RepeatsExactly | src/drivers/cd.other.c:1170-1174 | every repeat, the first and all that follow, sends what was sent at first if and only if nothing changes behind the continuation buffers and the first repeat fits: the first buffer has the length of what lies ahead of the message as a period, and the continuation buffers held the end of it and the octets behind them |
| Repeating.FirstRepeatExactly | src/drivers/cd.other.c:1170-1174 | the same for the first repeat alone |
| Repeating.RepeatsFromBase | src/drivers/cd.other.c:1170-1174 | of a message that begins at its base, every repeat sends the same if and only if each continuation buffer sends one octet and every octet behind that equals it |
| Repeating.OneBufferExactly | src/drivers/cd.other.c:1170-1174 | of a message in one buffer, the first repeat and every repeat send the same if and only if it begins at the base |
| Repeating.EngineRepeats | src/drivers/cd.other.c:1170-1174 | what the engine model repeats of a message in one buffer is what the pointers make of it, every time |
| Repeating.RepeatSendsHead | src/drivers/cd.other.c:1171-1171 | a message of one octet behind its base, whose repeat sends the octet ahead of it too |
| Repeating.SecondRepeatDiffers | src/drivers/cd.other.c:1282-1285 | a message whose first repeat is the same and whose second is not |
| Repeating.RepeatTruncates | src/drivers/cd.other.c:1170-1174 | a message in two buffers whose first repeat is one octet of the second, from behind what it held |
| TxEngine.Transmitter.Enqueue | src/drivers/cd.other.c:1148-1163 | a queued message is committed to the line behind everything before it |
| TxEngine.Transmitter.StartBlock | src/drivers/cd.other.c:1219-1227 | an idle engine looks at the queue |
| TxEngine.Transmitter.IdleBacklog | src/drivers/cd.other.c:1228-1241 | between frames only the register separates the line sent from the line committed to |
| TxEngine.Transmitter.constructor | src/drivers/cd.other.c:1207-1216 | a fresh transmitter is idle with an empty line |
| TxEngine.AccountMoved | src/drivers/cd.other.c:1281-1303 | bits moved from the frame in hand to the register leave the line unchanged |
| TxEngine.AccountAgain | src/drivers/cd.other.c:1170-1174 | a repeat adds a frame of the kept message to the line, with what lies between the base of its buffer and its first octet |
| Transmitting.RerunExactly | src/drivers/cd.other.c:1171-1171 | a repeat carries the message as it was if and only if nothing lies ahead of it in its buffer |
| TxEngine.AccountFill | src/drivers/cd.other.c:1243-1254 | fill goes behind everything, marks only before the first message |
| Transmitting.MofStep | src/drivers/cd.other.c:1281-1296 | sending one octet of a frame leaves the rest of the frame with the stuffing state and check moved on |
| Transmitting.MofEnd | src/drivers/cd.other.c:1290-1295 | what is left after the last octet |
| Transmitting.FlagWords | src/drivers/cd.other.c:1252-1274 | the flag constants are one, shared, two and three flags |
| Transmitting.OpeningWords | src/drivers/cd.other.c:1257-1276 | what each style puts before a frame, as a word of so many bits: 7e, 3f7e, 7e7e and 7e7e7e |
| Transmitting.FillWords | src/drivers/cd.other.c:1243-1254 | an idle line carries ff before the first message and 7e after |
| Line.OpeningCounts | src/drivers/cd.other.c:1257-1276 | the receiver's states count one, two, two and three flags in them |
| Transmitting.CheckWords | src/drivers/cd.other.c:1293-1300 | the two check octets are the low and high halves of the register's word, or of ffff less it when complemented |
| Transmitting.Rev | src/drivers/cd.other.c:1119-1132 | bit i of the result is bit 7 - i of the octet |
| Receiving.SampleBitAt | src/drivers/cd.other.c:1462-1465 | the octet's highest bit is the first of its sample |
| Transmitting.SampleOf | src/drivers/cd.other.c:1237-1237 | reversing before sending and again on receipt gives the sample's bits |
| Stuffing.UnstuffStuff | src/drivers/cd.other.c:1633-1655 | zero deletion undoes zero insertion, from every state |
| Stuffing.StuffedRuns | src/drivers/cd.other.c:1633-1655 | a stuffed string never has six ones in a row |
| Stuffing.StuffAppend | src/drivers/cd.other.c:1186-1193 | stuffing piece by piece, with the state carried over, is stuffing the whole |
| Stuffing.StuffedLength | src/drivers/cd.other.c:1633-1655 | at most one bit in five is added |
| TxTable.TxTableValueN | src/drivers/cd.other.c:1633-1655 | the entry's word, length and state are the stuffed bits |
| TxTable.TxTableGenerate | src/drivers/cd.other.c:1900-1908 | every entry is right |
| TxTable.LookUp | src/drivers/cd.other.c:1188-1188 | a look-up finds it, with at most two bits added |
| PackedEntry.TableValue | src/drivers/crc.c:225-246 | the packed entry is that of an octet whose bits all equal the lowest: the stuffed bits, 1024 times how many beyond eight, and 4096 times the ones left open |
| PackedEntry.PackedAgrees | src/drivers/crc.c:225-246 | it equals the driver's packed entry if and only if the octet is 0 or 255 |
| PackedEntry.PackedDiffers | src/drivers/crc.c:232-244 | octet 2 from state 0 shows the difference |
| PackedEntry.FieldsInjective | src/drivers/crc.c:245-245 | the packing keeps its three fields apart |
| Crc.BurstDetected | src/drivers/cd.other.c:1482-1497 | changing any pattern within sixteen consecutive bits of a passing frame, anywhere, makes the check fail |
| Crc.EqualRemainders | src/drivers/crc.c:56-74 | strings equal outside sixteen bits and with equal remainders are equal |
| Crc.PassesIsRemainder | src/drivers/cd.other.c:1493-1497 | the receiver's test is a fixed remainder over body and check bits, for either convention |
| Crc.CheckIsRemainder | src/drivers/cd.other.c:1496-1496 | the check bits are the only sixteen that leave that remainder |
| Crc.ZeroRemainder | src/drivers/crc.c:56-74 | sixteen bits leave nothing if and only if they are the register |
| Crc.TableStep | src/drivers/cd.other.c:1287-1287 | one table step is eight bit steps |
| Crc.CrcInjective | src/drivers/crc.c:62-68 | the register after any data determines the register before |
| CrcTable.WordStep | src/drivers/cd.other.c:1287-1287 | the shift-and-table word expression is the register over the octet's bits |
| CrcTable.BitStep | src/drivers/crc.c:63-67 | the word form of one bit step, with the constant 8408 |
| CrcTable.BcTableValue | src/drivers/cd.other.c:1614-1626 | the table function clocks the index through the register |
| CrcTable.BcTableGenerate | src/drivers/cd.other.c:1946-1956 | all 511 entries for the nine index lengths are right |
| CrcTable.CompleteEntry | src/drivers/cd.other.c:1941-1944 | the first 256 entries are the octet entries |
| CrcTable.OffsetsAre | src/drivers/cd.other.c:1941-1956 | where the entries for each index length begin |
| CrcTable.GoodWord | src/drivers/cd.other.c:1493-1497 | the remainder good check bits leave: f0b8 when they are complemented, the good final FCS of appendix C.2 of RFC 1662, and nought when they are plain |
| CrcTable.PassesIsWord | src/drivers/cd.other.c:1493-1497 | the receiver's test passes exactly on bodies that leave that word |
| CrcTable.KnownCheck | src/drivers/cd.other.c:1278-1287 | the octets 01 02 03 leave the register at 9d04 |
| AddCrc.AddCrc | src/drivers/crc.c:56-74 | the buffer gets its check octets, low first, and nothing else changes |
| AddCrc.AddCrc2 | src/drivers/crc.c:108-128 | for every alignment and length: the two octets of the bitwise form, in the same place, if and only if the length covers the gap; otherwise the sum runs on beyond the message |
| AddCrc.Align | src/drivers/crc.c:111-114 | where the alignment loop stops and the count it leaves, which is right if and only if the length covers the gap |
| AddCrc.SumByWords | src/drivers/crc.c:115-119 | whole words give the register over their octets |
| AddCrc.FeedBits | src/drivers/crc.c:76-103 | the unrolled bit steps are the register over the word's bits, lowest first |
| AddCrc.LoadedBits | src/drivers/crc.c:116-116 | a little-endian word holds its octets' bits in order |
| AddCrc.OwnCheckLeavesZero | src/drivers/crc.c:70-72 | continuing over two octets leaves zero if and only if they are the ones appended |
| AddCrc.StoreFcs | src/drivers/crc.c:70-72 | the two octets stored |
| AddCrc.KnownOctets | src/drivers/crc.c:56-74 | behind the octets 01 02 03 go 04 9d |
| BufQ.Queue.Put | src/drivers/bufq.h:159-180 | a message goes last; links both ways, message count and octet count stay right |
| BufQ.Queue.PutHead | src/drivers/bufq.h:182-197 | a message goes first |
| BufQ.Queue.Insert | src/drivers/bufq.h:199-214 | a message goes before a given one |
| BufQ.Queue.Append | src/drivers/bufq.h:216-231 | a message goes behind a given one |
| BufQ.Queue.Dequeue | src/drivers/bufq.h:233-261 | the first message comes off, unlinked, or none; the over-count ends when the queue is empty |
| BufQ.Queue.DequeueTail | src/drivers/bufq.h:263-291 | the last message comes off |
| BufQ.Queue.Unlink | src/drivers/bufq.h:293-321 | any message comes out, the others in order |
| BufQ.Queue.SpliceHead | src/drivers/bufq.h:326-335 | the other queue's messages, then this one's; the other is empty |
| BufQ.Queue.SpliceTail | src/drivers/bufq.h:340-348 | this queue's messages, then the other's; the other is empty |
| BufQ.Queue.MoveLast | src/drivers/bufq.h:332-333 | one turn of the splice loop moves one message between the queues |
| BufQ.Queue.MoveFirst | src/drivers/bufq.h:346-347 | one turn of the other splice loop |
| BufQ.Queue.Purge | src/drivers/bufq.h:361-370 | every message is given up once, in order |
| BufQ.Queue.Supply | src/drivers/bufq.h:372-383 | each block of the message becomes an empty message, in order; the octet count rises by exactly the over-count |
| BufQ.Queue.SupplyFirst | src/drivers/bufq.h:377-381 | one turn of the loop: the block is counted with those behind it and then cut off |
| BufQ.Queue.Resupply | src/drivers/bufq.h:395-408 | supplied unless over a limit, where a negative limit is none because limits are compared unsigned, and handed back exactly when refused |
| BufQ.LimitIs | src/drivers/bufq.h:395-408 | a count is over a limit if and only if the limit is not negative and the count is greater |
| BufQ.Queue.Length | src/drivers/bufq.h:98-108 | the message count is the length, the octet count never below the octets held, and equal without over-count |
| BufQ.Queue.Add | src/drivers/bufq.h:122-137 | counting in sums the octets of the chain |
| BufQ.Queue.Sub | src/drivers/bufq.h:139-157 | counting out block by block stops at nought as one subtraction would |
| BufQ.Queue.constructor | src/drivers/bufq.h:73-81 | an empty queue |
| BufQ.Block.Cut | src/drivers/bufq.h:381-381 | unlinking the blocks behind leaves two whole messages |
| BufQ.ExcessIsWeighted | src/drivers/bufq.h:372-383 | the over-count in closed form: the block in position k counts k times |
| BufQ.ExcessIsZero | src/drivers/bufq.h:372-383 | there is none if and only if every block after the first was empty |
| BufQ.Distinct | src/drivers/bufq.h:128-132 | a chain that ends has no block twice |
| ChannelCopy.WriteThenRead | src/drivers/ch.c:1589-1600 | what is written into a block for a channel on all spans is read back |
| ChannelCopy.OthersUndisturbed | src/drivers/ch.c:1589-1600 | writing one channel changes nothing a channel with a disjoint mask reads |
| ChannelCopy.OrderLies | src/drivers/ch.c:1594-1599 | every place touched is inside the block, none twice, and there are eight for each span and set bit |
| ChannelCopy.PlaceOf | src/drivers/ch.c:1594-1599 | where each octet is: for frame f, span s and channel c of a mask that names m channels and r below c, with n spans walked, number f n m + s m + r goes to place f times the size of a frame + c times the spans + s |
| ChannelCopy.OrderHas | src/drivers/ch.c:1594-1599 | a place is touched if and only if its channel is named and its span walked |
| ChannelCopy.DisjointIs | src/drivers/ch.c:1594-1599 | masks are disjoint if and only if no bit is set in both |
| ChannelCopy.WriteData | src/drivers/ch.c:1589-1607 | the octet for each frame, span walked and channel named goes from its place in the data to its place in the block, both in closed form; everything else in the block stays, and the rest of the data is put back |
| ChannelCopy.ReadData | src/drivers/ch.c:2445-2452 | the same octets come back from the same places in the same order |
| ChannelCopy.WriteFrames | src/drivers/ch.c:1594-1599 | the frame loop |
| ChannelCopy.ReadFrames | src/drivers/ch.c:2445-2452 | the frame loop of the reader |
| ChannelCopy.WriteSpans | src/drivers/ch.c:1595-1599 | the span loop, first span first |
| ChannelCopy.ReadSpans | src/drivers/ch.c:2447-2452 | the span loop of the reader, first span first |
| ChannelCopy.WriteRow | src/drivers/ch.c:1596-1599 | the channel loop runs to the highest set bit |
| ChannelCopy.ReadRow | src/drivers/ch.c:2448-2452 | the channel loop of the reader |
| ChannelCopy.SpansRange | src/drivers/ch.c:1595-1599 | the places of one frame stay inside the frame |
| ChannelCopy.FramesRange | src/drivers/ch.c:1594-1599 | the places of a channel stay inside the block |
| ChannelCopy.FramesDistinct | src/drivers/ch.c:1594-1599 | no place is touched twice |
| ChannelCopy.FramesApart | src/drivers/ch.c:1594-1599 | disjoint masks touch disjoint places |
| ChannelCopy.FramesCount | src/drivers/ch.c:1594-1599 | how many octets the loops move |
| ChannelCopy.SingleSpanMovesNothing | src/drivers/ch.c:225-233 | a channel on one span moves nothing |
| ChannelCopy.MovesAllExactly | src/drivers/ch.c:1595-1595 | the copies move eight octets for each span and channel if and only if the walk starts at the first span or there is nothing to move |
| ChannelLists.Mux.Attach | src/drivers/ch.c:464-479 | the channel is first in the attached list and the masks follow; the lists stay nested |
| ChannelLists.Mux.Enable | src/drivers/ch.c:480-499 | the same for the enabled list |
| ChannelLists.Mux.Connect | src/drivers/ch.c:500-516 | the same for the connected list |
| ChannelLists.Mux.Disconnect | src/drivers/ch.c:517-533 | the channel leaves the connected list if it is in it; the others keep their order and nesting |
| ChannelLists.Mux.Disable | src/drivers/ch.c:534-546 | the same for the enabled list |
| ChannelLists.Mux.Detach | src/drivers/ch.c:547-562 | the same for the attached list |
| ChannelLists.Mux.Terminate | src/drivers/ch.c:350-367 | forced teardown from every state takes out that channel and nothing else, and the lists stay nested |
| ChannelLists.Mux.Open | src/drivers/ch.c:314-326 | a new channel is in no list and its links point to themselves |
| ChannelLists.Mux.constructor | src/drivers/ch.c:369-374 | a new multiplex has three empty lists |
| ChannelLists.List.Push | src/drivers/ch.c:473-476 | linking at the head keeps every back pointer right |
| ChannelLists.List.Unlink | src/drivers/ch.c:526-529 | unlinking through the back pointer takes out that link, and does nothing for a link that points to itself |
| ChannelLists.List.Recompute | src/drivers/ch.c:421-434 | each span's mask is the masks of the members or-ed together, and the whole mask those of the spans |
| ChannelLists.List.MasksTell | src/drivers/ch.c:421-434 | a channel is in the mask of a span if and only if some member has it there, and in the whole mask if and only if some member has it in some span |
| ChannelLists.List.SpanMask | src/drivers/ch.c:430-431 | one walk along the list |
| ChannelLists.List.Add | src/drivers/ch.c:473-477 | link and recompute |
| ChannelLists.List.Remove | src/drivers/ch.c:526-530 | unlink and recompute |
| ChannelLists.OrAllBits | src/drivers/ch.c:430-431 | a channel bit is in a span's mask if and only if some member has it |
| ChannelLists.OrSeqBits | src/drivers/ch.c:432-432 | a channel is in the whole mask if and only if it is in the mask of some span |
| ChannelLists.MinusMembers | src/drivers/ch.c:526-529 | the members left are exactly the others |
| TryLock.StreamLock.TryAcquire | src/drivers/clns-ip.c:241-258 | an attempt gets the free lock and leaves the slot; or it fails, takes the slot and is given the queue displaced to enable |
| TryLock.StreamLock.Release | src/drivers/clns-ip.c:260-275 | letting go frees lock and slot and names the queue to enable |
| TryLock.InvStep | src/drivers/clns-ip.c:241-275 | every step of any queue keeps the protocol invariant |
| TryLock.InvAlways | src/drivers/clns-ip.c:241-275 | over every interleaving: one holder at most, a waiter only while it is held, every failed queue recorded or about to be enabled, and one enable for every failure |
| TryLock.NoLostWakeUp | src/drivers/clns-ip.c:252-271 | when the lock is free every parked queue is about to be enabled |
| TryLock.QuietMeansNobodyWaits | src/drivers/clns-ip.c:252-271 | when nothing is held and no enable is due nobody is left waiting |
| TryLock.WaiterIsLast | src/drivers/clns-ip.c:247-252 | after every history the lock is held if and only if it was taken and not let go since, and the slot holds the queue whose attempt failed last since then |
| TryLock.AttemptWakes | src/drivers/clns-ip.c:247-256 | an attempt that fails makes one enable due, for the queue that failed before it, and never for itself; the first to fail makes none |
| TryLock.LetGoWakes | src/drivers/clns-ip.c:260-271 | letting go makes one enable due, for the queue that failed last, if one has |
| TryLock.ThirdDisplacesSecond | src/drivers/clns-ip.c:250-256 | a third queue to ask is recorded and the second enabled |
| Biquad.Filter.Biquad2 | src/drivers/biquad.h:92-105 | the delays move by the recurrence with its coefficients written out, and the result fits sixteen bits and differs from the recurrence by a multiple of 65536, from every state that runs of samples can reach; the 32-bit cuts change nothing |
| Biquad.Respond | src/drivers/biquad.h:92-105 | a fresh filter given any samples: each result is the recurrence in sixteen bits, and the recurrence itself when the samples are within 19331 |
| Biquad.CutTo16 | src/drivers/biquad.h:103-104 | cutting to sixteen bits changes a value by a multiple of 65536, and not at all if and only if it fits |
| Biquad.FirstResult | src/drivers/biquad.h:98-104 | a first sample of 1000 gives -760 |
| Biquad.Filter.constructor | src/drivers/biquad.h:77-88 | the delays start at zero |
| Biquad.StaysReachable | src/drivers/biquad.h:98-102 | a skewed bound on the two delays that every sample in range keeps |
| Biquad.RunNeverOverflows | src/drivers/biquad.h:98-99 | on every run of 16-bit samples every intermediate fits 32 bits |
| Biquad.RunStaysSmall | src/drivers/biquad.h:98-102 | samples within 7000 keep both delays within 15000 |
| Biquad.RunFitsResult | src/drivers/biquad.h:98-104 | samples within 19331 keep the result within 16 bits and the delays within 37100 |
| Biquad.FitsExactly | src/drivers/biquad.h:92-105 | every result of every run with samples up to a size fits 16 bits if and only if the size is at most 19331 |
| Biquad.Bounded | src/drivers/biquad.h:98-102 | what a linear form of the delays can be worth after any run, by taking steps back |
| Biquad.LoudRunIsCut | src/drivers/biquad.h:103-104 | thirty-three samples of size 19332 whose result does not fit |
| Biquad.StepUncut | src/drivers/biquad.h:98-99 | no cut in the two sums |
| EchoDetector.Detector.Update | src/drivers/ecdis.h:104-141 | each level moves by the whole thirty-seconds or sixteenths of the difference to the size of the sample, of the line or with the tone filtered out, and stays in 0 to 32768; a hit is given exactly when what the samples have shown holds three good onsets in one stretch of energy, and it stays |
| EchoDetector.DampedMoves | src/drivers/ecdis.h:114-115 | a level never passes the size of the sample, comes nearer unless it is less than one part below it, and stays then |
| EchoDetector.LevelSettles | src/drivers/ecdis.h:114-115 | over samples of one size a level settles less than one part below it, from wherever it was |
| EchoDetector.SoftIsNeverHeard | src/drivers/ecdis.h:116-139 | a line with no sample beyond 280 is never taken for the tone |
| EchoDetector.Detector.Judge | src/drivers/ecdis.h:116-139 | the branches on the levels are one tick of the counters |
| EchoDetector.Detector.constructor | src/drivers/ecdis.h:82-100 | a fresh detector has heard nothing |
| EchoDetector.CountersTell | src/drivers/ecdis.h:116-139 | over every history: a hit if and only if some uninterrupted stretch of energy had three onsets each 3400 to 3800 samples after the onset, or the start of the stretch, before it |
| EchoDetector.HitStays | src/drivers/ecdis.h:125-126 | a hit is never taken back |
| EchoDetector.OnsetTimes | src/drivers/ecdis.h:122-123 | an onset is good if and only if it comes 3400 to 3800 samples after the mark before it |
| EchoDetector.GoodByMark | src/drivers/ecdis.h:122-123 | the cycle counter measures from the last onset or the start of the stretch |

## Left out

- The STREAMS plumbing: flow control other than one `canput` answer for each block, M_FLUSH and M_IOCTL, open and close, module registration, printing, statistics.
- The control-plane handlers of `cd.other.c` and their states; the connection messages and confirm loops of `ch.c`.
- Allocation failures: buffers are taken to be available, so the retries on ENOBUFS are not modelled.
- The PPA decoding in the first `ch_attach`, and the second set of attach and enable functions at `src/drivers/ch.c:225-310`; the set at lines 464-562 is the one modelled, with its `state = X` read as the channel's state.
- `addcrc3`, whose text is that of `addcrc2`; the commented state tables of `crc.c`.
- The wait queue and the read-write lock of `clns-ip.c`: acquiring by sleeping is not part of the protocol modelled.
- `bufq_freehead`, which is one dequeue; the null checks on queues and messages; the spin lock of `bufq.h`, so each operation is one step.
- TxEngine.Transmitter.Enqueue: the engine takes messages whose continuation blocks are not empty, and a message kept for repeating in a single block, with what lies ahead of it in its buffer; the others, whose octets come from behind the blocks, are modelled in `Repeating` alone (`Repeating.SentExactly`, `Repeating.RepeatsExactly`), not through the engine.
- Loopback.Run: without octet counting, like `Loopback.RunRepeating`; with repeating there is no bound on when a message is through.
- Receiving.SampleExactly: the least frame length is between 1 and 64 here. The source takes 0, where a frame of check bits alone passes the tests and a null message is linked and used (`src/drivers/cd.other.c:1498-1507`), and more than 64, where the length check reads beyond the first block.
- RxEngine.Receiver.RxBuffer: a buffer given away is taken to keep its contents; what another owner may write into it is not modelled.
- RxEngine.Receiver.LenCheck: reads the octets of the whole message where the source reads its first buffer; the header lies within it.
- RxEngine.Receiver.CountOctet: the count N is positive, as the loop needs.
- RxTable.RxTableValueN: the switch is written once for all states, with the delayed bits of a state put out by two loops instead of a row of assignments each; `DO_1` and `DO_4` of `crc.c` are loops likewise.
- AddCrc.AddCrc2: the memory reaches as far as the walk does and does not wrap round; the address is a number and words are little-endian.
- ChannelCopy.WriteData: the nested loops are one method each; buffers are one block each.
- BufQ.Queue.Supply: the data type field of a block is not kept.
- EchoDetector.Detector.Update: the cycle counter is unbounded.
- ChannelLists.Mux.Enable: the attach, enable and connect of a channel are guarded by how far it is linked, which the channel's settled states fix; the multiplex's own state is not kept.
